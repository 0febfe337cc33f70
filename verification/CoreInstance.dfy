/** The instance: its fields, changed in place by calls and by the callbacks that these call. */
module CoreInstance {
  import opened CoreFeatures
  import opened Options

  // ---- a callback finds an input for each of its parameters ----

  /** A feature whose value is assignable to the type it is registered under. */
  predicate Honest(f: Feature) {
    f.declared in f.assignableTo
  }

  predicate HonestAction(a: Action)
    decreases a
  {
    match a
    case Add(f) => Honest(f)
    case Require(r) => HonestAll(r.body)
  }

  predicate HonestAll(acts: seq<Action>)
    decreases acts
  {
    acts == [] || (HonestAction(acts[0]) && HonestAll(acts[1..]))
  }

  predicate HonestWork(w: Work) {
    if w.Do? then HonestAction(w.action) else HonestAll(w.resolution.body)
  }

  predicate HonestState(s: State) {
    && (forall f <- s.features :: Honest(f))
    && (forall r <- s.pending :: HonestAll(r.body))
    && (forall r <- s.optional :: HonestAll(r.body))
  }

  lemma {:induction false} HonestAt(acts: seq<Action>, k: nat)
    requires k < |acts| && HonestAll(acts)
    ensures HonestAction(acts[k])
  {
    if k > 0 {
      HonestAt(acts[1..], k - 1);
    }
  }

  lemma StepHonest(s: State, w: Work)
    requires HonestState(s) && HonestWork(w)
    ensures HonestState(Step(s, w).0) && forall x <- Step(s, w).1 :: HonestWork(x)
  {
    match w
    case Do(Add(f)) => AvailableGood(s, f);
    case Do(Require(r)) =>
    case Fire(r) =>
      forall k | 0 <= k < |r.body| ensures HonestAction(r.body[k]) { HonestAt(r.body, k); }
  }

  lemma {:induction false} ExecHonest(s: State, work: seq<Work>)
    requires HonestState(s) && forall w <- work :: HonestWork(w)
    ensures HonestState(Exec(s, work))
    decreases Weight(s, work)
  {
    if work != [] {
      assert [work[0]] + work[1..] == work;
      StepWeight(s, work[0], work[1..]);
      StepHonest(s, work[0]);
      ExecHonest(Step(s, work[0]).0, Step(s, work[0]).1 + work[1..]);
    }
  }

  /** The first feature, from the k-th on, that is assignable to `t`. */
  function FirstAssignable(features: seq<Feature>, t: TypeName, k: nat): (f: Option<Feature>)
    requires k <= |features|
    ensures f.None? <==> forall g <- features[k..] :: t !in g.assignableTo
    ensures f.Some? ==> f.value in features && t in f.value.assignableTo
    decreases |features| - k
  {
    if k == |features| then None
    else
      assert features[k..] == [features[k]] + features[k + 1..];
      if t in features[k].assignableTo then Some(features[k]) else FirstAssignable(features, t, k + 1)
  }

  /** The inputs of the first `n` parameters; a parameter without a feature contributes none. */
  function Inputs(features: seq<Feature>, deps: seq<TypeName>, n: nat): (input: seq<Feature>)
    requires n <= |deps|
    ensures |input| <= n
  {
    if n == 0 then []
    else
      var f := FirstAssignable(features, deps[n - 1], 0);
      Inputs(features, deps, n - 1) + if f.Some? then [f.value] else []
  }

  predicate HasInput(features: seq<Feature>, t: TypeName) {
    exists f <- features :: t in f.assignableTo
  }

  /** The call does not panic exactly when each parameter type has a feature whose value is assignable to it. */
  lemma {:induction false} EnoughInputs(features: seq<Feature>, deps: seq<TypeName>, n: nat)
    requires n <= |deps|
    ensures |Inputs(features, deps, n)| == n <==> forall t <- deps[..n] :: HasInput(features, t)
    ensures |Inputs(features, deps, n)| == n
            ==> forall k | 0 <= k < n :: deps[k] in Inputs(features, deps, n)[k].assignableTo
  {
    if n != 0 {
      EnoughInputs(features, deps, n - 1);
      assert deps[..n] == deps[..n - 1] + [deps[n - 1]];
      assert features[0..] == features;
      assert FirstAssignable(features, deps[n - 1], 0).Some? <==> HasInput(features, deps[n - 1]);
      assert deps[n - 1] in deps[..n] && forall t <- deps[..n - 1] :: t in deps[..n];
    }
  }

  /** When features are assignable to the types they are registered under, a satisfied callback never panics. */
  lemma NoPanic(features: seq<Feature>, r: Resolution)
    requires Satisfied(features, r) && forall f <- features :: Honest(f)
    ensures |Inputs(features, r.deps, |r.deps|)| == |r.deps|
  {
    EnoughInputs(features, r.deps, |r.deps|);
    assert r.deps[..|r.deps|] == r.deps;
    forall t <- r.deps ensures HasInput(features, t) {
      var f :| f in features && f.declared == t;
      assert t in f.assignableTo;
    }
  }

  /** At most one of some features is assignable to each parameter type. */
  predicate OneEach(all: set<Feature>, deps: seq<TypeName>) {
    forall t <- deps, f <- all, g <- all :: t in f.assignableTo && t in g.assignableTo ==> f == g
  }

  /** Then a callback gets the same inputs, whenever it is called and in whatever order features were registered. */
  lemma {:induction false} SameInputs(all: set<Feature>, a: seq<Feature>, b: seq<Feature>, deps: seq<TypeName>, n: nat)
    requires n <= |deps| && OneEach(all, deps)
    requires forall f <- a + b :: f in all
    requires forall t <- deps :: HasInput(a, t) && HasInput(b, t)
    ensures Inputs(a, deps, n) == Inputs(b, deps, n)
  {
    if n != 0 {
      SameInputs(all, a, b, deps, n - 1);
      var t := deps[n - 1];
      var (f, g) := (FirstAssignable(a, t, 0), FirstAssignable(b, t, 0));
      assert a[0..] == a && b[0..] == b;
      assert t in deps && HasInput(a, t) && HasInput(b, t);
      assert f.Some? && g.Some? && f.value in a + b && g.value in a + b;
    }
  }

  /** Otherwise the order can decide. */
  lemma InputsByOrder(t: TypeName, f: Feature, g: Feature)
    requires f != g && t in f.assignableTo && t in g.assignableTo
    ensures Inputs([f, g], [t], 1) == [f] && Inputs([g, f], [t], 1) == [g]
  {
    assert Inputs([f, g], [t], 0) == [] && Inputs([g, f], [t], 0) == [];
  }

  /** A feature registered under a type it does not have satisfies a callback that then panics. */
  lemma DishonestPanics()
    ensures exists features, r ::
              Satisfied(features, r) && |Inputs(features, r.deps, |r.deps|)| < |r.deps|
  {
    var (features, r) := ([Feature("dns", {"router"})], Resolution("r", ["dns"], false, [], false, false));
    assert features[0] in features;
    EnoughInputs(features, r.deps, 1);
    assert r.deps[..1] == r.deps && "dns" in r.deps;
    assert Satisfied(features, r);
  }

  lemma AvailableGood(s: State, f: Feature)
    requires HonestState(s) && Honest(f)
    ensures HonestState(AddStep(s, f))
    ensures forall r <- Available(s, f) :: HonestAll(r.body) && Satisfied(AddStep(s, f).features, r)
  {
    Sorted(s.features + [f], s.pending, |s.pending|);
    Sorted(s.features + [f], s.optional, |s.optional|);
  }

  // ---- calls inside calls end ----

  lemma {:induction false} ExecWeight(s: State, work: seq<Work>, rest: seq<Work>)
    ensures Weight(Exec(s, work), rest) <= Weight(s, work + rest)
    decreases Weight(s, work)
  {
    if work == [] {
      assert work + rest == rest;
    } else {
      var (s', more) := Step(s, work[0]);
      assert [work[0]] + work[1..] == work;
      StepWeight(s, work[0], work[1..]);
      StepWeight(s, work[0], work[1..] + rest);
      ExecWeight(s', more + work[1..], rest);
      assert more + work[1..] + rest == more + (work[1..] + rest);
      assert work + rest == [work[0]] + (work[1..] + rest);
    }
  }

  /** What is still to do after a prefix of some work weighs no more than all of it. */
  lemma PartWeight(s: State, work: seq<Work>, i: nat)
    requires i < |work|
    ensures Weight(Exec(s, work[..i]), [work[i]]) <= Weight(s, work)
    ensures Exec(s, work[..i + 1]) == Exec(Exec(s, work[..i]), [work[i]])
  {
    assert work[..i + 1] == work[..i] + [work[i]];
    assert work == work[..i + 1] + work[i + 1..];
    ExecWeight(s, work[..i], [work[i]]);
    WorkWeightAppend(work[..i + 1], work[i + 1..]);
    ExecAppend(s, work[..i], [work[i]]);
  }

  // ---- errors ----

  /** Whether a call on the instance, or the call of a callback, returns an error. */
  ghost predicate Returned(s: State, w: Work)
    decreases Weight(s, [w]), 0, 0
  {
    match w
    case Do(Add(f)) =>
      var a := Available(s, f);
      !s.running && a != [] &&
      (LastWeight(s, f);
       Returned(BeforeLast(s, f), Fire(a[|a| - 1])))
    case Do(Require(r)) =>
      StepWeight(s, w, []);
      assert [Fire(r)] + [] == [Fire(r)] && [w] + [] == [w];
      Satisfied(s.features, r) && Returned(Step(s, w).0, Fire(r))
    case Fire(r) =>
      StepWeight(s, w, []);
      assert Does(r.body) + [] == Does(r.body) && [w] + [] == [w];
      r.fails || (r.passesOn && AnyReturned(Step(s, w).0, r.body, |r.body|))
  }

  /** Whether one of the first `n` calls of a callback returns an error. */
  ghost predicate AnyReturned(s: State, acts: seq<Action>, n: nat)
    requires n <= |acts|
    decreases Weight(s, Does(acts)), 1, n
  {
    n > 0 &&
    (AnyReturned(s, acts, n - 1) ||
     (PartWeight(s, Does(acts), n - 1);
      Returned(Exec(s, Does(acts)[..n - 1]), Do(acts[n - 1]))))
  }

  /** The state in which registering a feature calls the last of the callbacks it makes available. */
  ghost function BeforeLast(s: State, f: Feature): State
    requires Available(s, f) != []
  {
    var a := Available(s, f);
    Exec(AddStep(s, f), Fires(a)[..|a| - 1])
  }

  lemma LastWeight(s: State, f: Feature)
    requires Available(s, f) != []
    ensures var a := Available(s, f); Weight(BeforeLast(s, f), [Fire(a[|a| - 1])]) < Weight(s, [Do(Add(f))])
  {
    var a := Available(s, f);
    AddWeight(s, f);
    PartWeight(AddStep(s, f), Fires(a), |a| - 1);
    assert [Do(Add(f))][1..] == [];
  }

  // -- a returned error is real

  /** Between two states, a callback that fails by itself has been called. */
  predicate FailureBetween(s: State, t: State) {
    |s.fired| <= |t.fired| && exists k :: |s.fired| <= k < |t.fired| && t.fired[k].fails
  }

  lemma {:induction false} FiredGrows(s: State, work: seq<Work>)
    ensures s.fired <= Exec(s, work).fired
    decreases Weight(s, work)
  {
    if work != [] {
      assert [work[0]] + work[1..] == work;
      StepWeight(s, work[0], work[1..]);
      FiredGrows(Step(s, work[0]).0, Step(s, work[0]).1 + work[1..]);
    }
  }

  /** A part of a run in which a callback fails makes the whole such a run. */
  lemma PartFails(s: State, work: seq<Work>, i: nat)
    requires i < |work| && FailureBetween(Exec(s, work[..i]), Exec(Exec(s, work[..i]), [work[i]]))
    ensures FailureBetween(s, Exec(s, work))
  {
    var (a, b) := (Exec(s, work[..i]), Exec(s, work[..i + 1]));
    PartWeight(s, work, i);
    assert work == work[..i + 1] + work[i + 1..];
    ExecAppend(s, work[..i + 1], work[i + 1..]);
    FiredGrows(s, work[..i]);
    FiredGrows(b, work[i + 1..]);
    var k :| |a.fired| <= k < |b.fired| && b.fired[k].fails;
    assert Exec(s, work).fired[k] == b.fired[k];
  }

  /** Whoever returns an error has called, or had called, a callback that fails by itself. */
  lemma {:induction false} ReturnedIsReal(s: State, w: Work)
    requires Returned(s, w)
    ensures FailureBetween(s, Exec(s, [w]))
    decreases Weight(s, [w]), 0, 0
  {
    ExecStep(s, w);
    StepWeight(s, w, []);
    match w {
      case Do(Add(f)) =>
        var a := Available(s, f);
        LastWeight(s, f);
        ReturnedIsReal(BeforeLast(s, f), Fire(a[|a| - 1]));
        PartFails(AddStep(s, f), Fires(a), |a| - 1);
      case Do(Require(r)) =>
        ReturnedIsReal(Step(s, w).0, Fire(r));
      case Fire(r) =>
        var t := Step(s, w).0;
        assert Does(r.body) + [] == Does(r.body) && [w] + [] == [w];
        FiredGrows(t, Does(r.body));
        if r.fails {
          assert Exec(s, [w]).fired[|s.fired|] == r;
        } else {
          AnyIsReal(t, r.body, |r.body|);
        }
    }
  }

  lemma {:induction false} AnyIsReal(s: State, acts: seq<Action>, n: nat)
    requires n <= |acts| && AnyReturned(s, acts, n)
    ensures FailureBetween(s, Exec(s, Does(acts)))
    decreases Weight(s, Does(acts)), 1, n
  {
    if AnyReturned(s, acts, n - 1) {
      AnyIsReal(s, acts, n - 1);
    } else {
      PartWeight(s, Does(acts), n - 1);
      ReturnedIsReal(Exec(s, Does(acts)[..n - 1]), Do(acts[n - 1]));
      PartFails(s, Does(acts), n - 1);
    }
  }

  // -- which errors are lost

  /** Whether the k-th callback that registering a feature calls returns an error. */
  ghost predicate AvailableErrs(s: State, f: Feature, k: nat)
    requires k < |Available(s, f)|
  {
    Returned(Exec(AddStep(s, f), Fires(Available(s, f))[..k]), Fire(Available(s, f)[k]))
  }

  ghost predicate SomeAvailableErrs(s: State, f: Feature) {
    exists k :: 0 <= k < |Available(s, f)| && AvailableErrs(s, f, k)
  }

  /** Registering a feature reports the errors of the callbacks it calls exactly if there are none or the last errs. */
  lemma AddReportsIff(s: State, f: Feature)
    requires !s.running
    ensures Returned(s, Do(Add(f))) ==> SomeAvailableErrs(s, f)
    ensures (SomeAvailableErrs(s, f) ==> Returned(s, Do(Add(f))))
            <==> (forall k | 0 <= k < |Available(s, f)| :: !AvailableErrs(s, f, k))
                 || AvailableErrs(s, f, |Available(s, f)| - 1)
  {
    var a := Available(s, f);
    if a != [] {
      assert Returned(s, Do(Add(f))) == AvailableErrs(s, f, |a| - 1);
    }
  }

  lemma QuietCallback(s: State, r: Resolution)
    requires r.body == []
    ensures Returned(s, Fire(r)) == r.fails
  {
    assert !AnyReturned(Step(s, Fire(r)).0, r.body, 0);
  }

  /** The same for callbacks that make no calls: what counts is which of them fail. */
  lemma QuietAddReportsIff(s: State, f: Feature)
    requires !s.running && forall r <- Available(s, f) :: r.body == []
    ensures ((exists r <- Available(s, f) :: r.fails) ==> Returned(s, Do(Add(f))))
            <==> var a := Available(s, f); (forall r <- a :: !r.fails) || a[|a| - 1].fails
  {
    var a := Available(s, f);
    forall k | 0 <= k < |a| ensures AvailableErrs(s, f, k) == a[k].fails {
      assert a[k] in a;
      QuietCallback(Exec(AddStep(s, f), Fires(a)[..k]), a[k]);
    }
    if a != [] {
      assert Returned(s, Do(Add(f))) == AvailableErrs(s, f, |a| - 1);
    }
  }

  /** The errors of the calls that a callback makes come out exactly if it passes them on, or fails anyway. */
  lemma CallbackReportsIff(s: State, r: Resolution)
    ensures var inside := AnyReturned(Step(s, Fire(r)).0, r.body, |r.body|);
            (inside ==> Returned(s, Fire(r))) <==> !inside || r.passesOn || r.fails
  {
  }

  // -- runs in which no error is lost

  /** Along the run, no feature makes two callbacks available at once, and callbacks pass errors on. */
  ghost predicate Tight(s: State, work: seq<Work>)
    decreases Weight(s, work)
  {
    work == [] ||
    (StepWeight(s, work[0], work[1..]);
     assert [work[0]] + work[1..] == work;
     && (work[0].Fire? ==> work[0].resolution.passesOn)
     && (work[0].Do? ==> |Step(s, work[0]).1| <= 1)
     && Tight(Step(s, work[0]).0, Step(s, work[0]).1 + work[1..]))
  }

  lemma {:induction false} TightAppend(s: State, a: seq<Work>, b: seq<Work>)
    ensures Tight(s, a + b) <==> Tight(s, a) && Tight(Exec(s, a), b)
    decreases Weight(s, a)
  {
    if a == [] {
      assert a + b == b;
    } else {
      var (s', more) := Step(s, a[0]);
      StepWeight(s, a[0], a[1..]);
      assert [a[0]] + a[1..] == a;
      TightAppend(s', more + a[1..], b);
      assert (a + b)[1..] == a[1..] + b;
      assert more + (a[1..] + b) == (more + a[1..]) + b;
    }
  }

  lemma TightPart(s: State, work: seq<Work>, i: nat)
    requires i < |work| && Tight(s, work)
    ensures Tight(Exec(s, work[..i]), [work[i]])
  {
    assert work == work[..i] + ([work[i]] + work[i + 1..]);
    TightAppend(s, work[..i], [work[i]] + work[i + 1..]);
    TightAppend(Exec(s, work[..i]), [work[i]], work[i + 1..]);
  }

  lemma TightStep(s: State, w: Work)
    requires Tight(s, [w])
    ensures Tight(Step(s, w).0, Step(s, w).1)
  {
    assert Step(s, w).1 + [w][1..] == Step(s, w).1;
  }

  lemma FailureSplits(s: State, t: State, u: State)
    requires s.fired <= t.fired <= u.fired
    ensures FailureBetween(s, u) <==> FailureBetween(s, t) || FailureBetween(t, u)
  {
    if k :| |s.fired| <= k < |u.fired| && u.fired[k].fails {
      if k < |t.fired| {
        assert t.fired[k].fails;
      }
    }
    if k :| |s.fired| <= k < |t.fired| && t.fired[k].fails {
      assert u.fired[k].fails;
    }
  }

  /** In such a run, an error comes out exactly if a callback fails, however deep. */
  lemma {:induction false} NothingLost(s: State, w: Work)
    requires Tight(s, [w])
    ensures Returned(s, w) <==> FailureBetween(s, Exec(s, [w]))
    decreases Weight(s, [w]), 0, 0
  {
    if Returned(s, w) {
      ReturnedIsReal(s, w);
    }
    ExecStep(s, w);
    StepWeight(s, w, []);
    TightStep(s, w);
    var (t, more) := Step(s, w);
    assert more + [] == more && [w] + [] == [w];
    match w {
      case Fire(r) =>
        AnyTight(t, r.body, |r.body|);
        assert Does(r.body)[..|r.body|] == Does(r.body);
        FiredGrows(t, more);
        FailureSplits(s, t, Exec(t, more));
      case Do(a) =>
        if more != [] {
          assert more == [more[0]];
          NothingLost(t, more[0]);
          OnlyCall(s, a);
        }
    }
  }

  lemma OnlyCall(s: State, a: Action)
    requires |Step(s, Do(a)).1| == 1
    ensures Returned(s, Do(a)) <==> Returned(Step(s, Do(a)).0, Step(s, Do(a)).1[0])
  {
    if a.Add? {
      assert Fires(Available(s, a.feature))[..0] == [];
    }
  }

  lemma {:induction false} AnyTight(s: State, acts: seq<Action>, n: nat)
    requires n <= |acts| && Tight(s, Does(acts))
    ensures AnyReturned(s, acts, n) <==> FailureBetween(s, Exec(s, Does(acts)[..n]))
    decreases Weight(s, Does(acts)), 1, n
  {
    if n > 0 {
      AnyTight(s, acts, n - 1);
      TightPart(s, Does(acts), n - 1);
      PartWeight(s, Does(acts), n - 1);
      var (t, u) := (Exec(s, Does(acts)[..n - 1]), Exec(s, Does(acts)[..n]));
      NothingLost(t, Do(acts[n - 1]));
      FiredGrows(s, Does(acts)[..n - 1]);
      FiredGrows(t, [Do(acts[n - 1])]);
      FailureSplits(s, t, u);
    }
  }

  // ---- what callbacks are called with ----

  /** The first feature whose value is assignable to `t`. */
  ghost predicate FirstFor(features: seq<Feature>, t: TypeName, f: Feature) {
    exists m :: 0 <= m < |features| && features[m] == f && t in f.assignableTo
                && forall l | 0 <= l < m :: t !in features[l].assignableTo
  }

  ghost predicate GivenFirst(features: seq<Feature>, deps: seq<TypeName>, input: seq<Feature>) {
    |input| == |deps| && forall j | 0 <= j < |deps| :: FirstFor(features, deps[j], input[j])
  }

  ghost predicate AllGiven(features: seq<Feature>, fired: seq<Resolution>, given: seq<seq<Feature>>) {
    |given| == |fired| && forall k | 0 <= k < |fired| :: GivenFirst(features, fired[k].deps, given[k])
  }

  lemma {:induction false} AssignableIsFirst(features: seq<Feature>, t: TypeName, k: nat)
    requires k <= |features| && forall l | 0 <= l < k :: t !in features[l].assignableTo
    ensures var f := FirstAssignable(features, t, k); f.Some? ==> FirstFor(features, t, f.value)
    decreases |features| - k
  {
    if k < |features| && t !in features[k].assignableTo {
      AssignableIsFirst(features, t, k + 1);
    }
  }

  lemma {:induction false} InputsAreFirst(features: seq<Feature>, deps: seq<TypeName>, n: nat)
    requires n <= |deps|
    ensures |Inputs(features, deps, n)| == n ==> GivenFirst(features, deps[..n], Inputs(features, deps, n))
    ensures deps[..|deps|] == deps
  {
    if n > 0 {
      InputsAreFirst(features, deps, n - 1);
      AssignableIsFirst(features, deps[n - 1], 0);
    }
  }

  lemma OneMoreGiven(features: seq<Feature>, fired: seq<Resolution>, given: seq<seq<Feature>>, r: Resolution)
    requires AllGiven(features, fired, given)
    requires |Inputs(features, r.deps, |r.deps|)| == |r.deps|
    ensures AllGiven(features, fired + [r], given + [Inputs(features, r.deps, |r.deps|)])
  {
    InputsAreFirst(features, r.deps, |r.deps|);
  }

  /** Features that are added later make no difference. */
  lemma GivenStays(features: seq<Feature>, f: Feature, fired: seq<Resolution>, given: seq<seq<Feature>>)
    requires AllGiven(features, fired, given)
    ensures AllGiven(features + [f], fired, given)
  {
    forall t, g | FirstFor(features, t, g) ensures FirstFor(features + [f], t, g) {
      var m :| 0 <= m < |features| && features[m] == g && t in g.assignableTo
               && forall l | 0 <= l < m :: t !in features[l].assignableTo;
      assert (features + [f])[m] == g;
    }
  }

  /** A callback is its body, run with the callback on record. */
  lemma FireIsBody(s: State, r: Resolution)
    ensures var (t, more) := Step(s, Fire(r));
            && more == Does(r.body) && Exec(s, [Fire(r)]) == Exec(t, Does(r.body))
            && Weight(t, Does(r.body)) < Weight(s, [Fire(r)])
  {
    StepWeight(s, Fire(r), []);
    assert Does(r.body) + [] == Does(r.body) && [Fire(r)] + [] == [Fire(r)];
    ExecStep(s, Fire(r));
  }

  // ---- the class ----

  class Instance {
    var features: seq<Feature>
    var pendingResolutions: seq<Resolution>
    var pendingOptionalResolutions: seq<Resolution>
    var running: bool
    ghost var fired: seq<Resolution>
    ghost var calls: multiset<Action>
    ghost var given: seq<seq<Feature>>   // what each callback that fired was called with

    ghost function Value(): State
      reads this
    {
      State(features, pendingResolutions, pendingOptionalResolutions, running, fired, calls)
    }

    /** Every callback that fired was called with the first features there are for its parameters, in their order. */
    ghost predicate Sound()
      reads this
    {
      HonestState(Value()) && AllGiven(features, fired, given)
    }

    constructor ()
      ensures Value() == FRESH && Sound()
    {
      features, pendingResolutions, pendingOptionalResolutions, running := [], [], [], false;
      fired, calls, given := [], multiset{}, [];
    }

    /** The first feature registered under a type. */
    method GetFeature(t: TypeName) returns (found: Option<Feature>)
      ensures found.None? <==> t !in Types(features)
      ensures found.Some? ==> exists k :: 0 <= k < |features| && features[k] == found.value && found.value.declared == t
                                          && forall j | 0 <= j < k :: features[j].declared != t
    {
      for k := 0 to |features|
        invariant forall j | 0 <= j < k :: features[j].declared != t
      {
        if features[k].declared == t {
          return Some(features[k]);
        }
      }
      return None;
    }

    method FoundAll(r: Resolution) returns (foundAll: bool)
      ensures foundAll == Satisfied(features, r)
    {
      for i := 0 to |r.deps|
        invariant forall j | 0 <= j < i :: r.deps[j] in Types(features)
      {
        var f := GetFeature(r.deps[i]);
        if f.None? {
          return false;
        }
      }
      return true;
    }

    method FindAssignable(t: TypeName) returns (found: Option<Feature>)
      ensures found == FirstAssignable(features, t, 0)
    {
      for k := 0 to |features|
        invariant FirstAssignable(features, t, 0) == FirstAssignable(features, t, k)
      {
        if t in features[k].assignableTo {
          return Some(features[k]);
        }
      }
      return None;
    }

    /** An input for each parameter, if it has one. */
    method CollectInputs(deps: seq<TypeName>) returns (input: seq<Feature>)
      ensures input == Inputs(features, deps, |deps|)
    {
      input := [];
      for i := 0 to |deps|
        invariant input == Inputs(features, deps, i)
      {
        var f := FindAssignable(deps[i]);
        if f.Some? {
          input := input + [f.value];
        }
      }
    }

    /** Calls a callback, which may call back; it panics if a parameter has no input, and it always has one. */
    method CallbackResolution(r: Resolution) returns (failed: bool)
      requires Sound() && HonestAll(r.body) && Satisfied(features, r)
      modifies this
      ensures Value() == Exec(old(Value()), [Fire(r)]) && Sound()
      ensures failed == Returned(old(Value()), Fire(r))
      decreases Weight(Value(), [Fire(r)]), 1
    {
      ghost var was := Value();
      var input := CollectInputs(r.deps);
      NoPanic(features, r);
      assert |input| == |r.deps|;
      OneMoreGiven(features, fired, given, r);
      fired, given := fired + [r], given + [input];
      FireIsBody(was, r);
      failed := RunBody(r.body);
      failed := r.fails || (r.passesOn && failed);
    }

    /** The calls that a callback makes, and whether one of them returns an error. */
    method RunBody(acts: seq<Action>) returns (failed: bool)
      requires Sound() && HonestAll(acts)
      modifies this
      ensures Value() == Exec(old(Value()), Does(acts)) && Sound()
      ensures failed == AnyReturned(old(Value()), acts, |acts|)
      decreases Weight(Value(), Does(acts)), 3
    {
      ghost var s := Value();
      failed := false;
      for i := 0 to |acts|
        invariant Value() == Exec(s, Does(acts)[..i]) && Sound()
        invariant failed == AnyReturned(s, acts, i)
      {
        PartWeight(s, Does(acts), i);
        HonestAt(acts, i);
        assert Does(acts)[i] == Do(acts[i]);
        var returned := Perform(acts[i]);
        failed := failed || returned;
      }
      assert Does(acts)[..|acts|] == Does(acts);
    }

    /** One call on the instance. */
    method Perform(a: Action) returns (failed: bool)
      requires Sound() && HonestAction(a)
      modifies this
      ensures Value() == Exec(old(Value()), [Do(a)]) && Sound()
      ensures failed == Returned(old(Value()), Do(a))
      decreases Weight(Value(), [Do(a)]), 2
    {
      match a {
        case Add(f) => failed := AddFeature(f);
        case Require(r) => failed := RequireFeatures(r);
      }
    }

    method RequireFeatures(r: Resolution) returns (failed: bool)
      requires Sound() && HonestAll(r.body)
      modifies this
      ensures Value() == Exec(old(Value()), [Do(Require(r))]) && Sound()
      ensures failed == Returned(old(Value()), Do(Require(r)))
      decreases Weight(Value(), [Do(Require(r))]), 1
    {
      ghost var was := Value();
      ExecStep(was, Do(Require(r)));
      StepWeight(was, Do(Require(r)), []);
      var foundAll := FoundAll(r);
      calls := calls + multiset{Require(r)};
      if foundAll {
        assert [Fire(r)] + [] == [Fire(r)];
        failed := CallbackResolution(r);
      } else {
        if r.optional {
          pendingOptionalResolutions := pendingOptionalResolutions + [r];
        } else {
          pendingResolutions := pendingResolutions + [r];
        }
        failed := false;
      }
    }

    /** Sorts pending callbacks into those that can be called and those that must wait. */
    method Sort(rs: seq<Resolution>) returns (available: seq<Resolution>, pending: seq<Resolution>)
      ensures available == Ready(features, rs, |rs|) && pending == Waiting(features, rs, |rs|)
    {
      available, pending := [], [];
      for i := 0 to |rs|
        invariant available == Ready(features, rs, i) && pending == Waiting(features, rs, i)
      {
        var foundAll := FoundAll(rs[i]);
        if foundAll {
          available := available + [rs[i]];
        } else {
          pending := pending + [rs[i]];
        }
      }
    }

    /** Registers a feature and calls what waited for it; only the error of the last callback is returned. */
    method AddFeature(f: Feature) returns (failed: bool)
      requires Sound() && Honest(f)
      modifies this
      ensures Value() == Exec(old(Value()), [Do(Add(f))]) && Sound()
      ensures failed == Returned(old(Value()), Do(Add(f)))
      ensures old(running) ==> Value() == old(Value()) && !failed
      decreases Weight(Value(), [Do(Add(f))]), 1
    {
      ghost var was := Value();
      ExecStep(was, Do(Add(f)));
      if running {
        return false;
      }
      AddWeight(was, f);
      assert Weight(was, [Do(Add(f))]) == Weight(was, []) + 1 by { assert [Do(Add(f))][1..] == []; }
      AvailableGood(was, f);
      var available := TakeAvailable(f);
      failed := CallAll(available);
    }

    /** The part of AddFeature that runs under the lock. */
    method TakeAvailable(f: Feature) returns (available: seq<Resolution>)
      requires Sound() && Honest(f)
      modifies this
      ensures Value() == AddStep(old(Value()), f) && Sound()
      ensures available == Available(old(Value()), f)
    {
      AvailableGood(Value(), f);
      GivenStays(features, f, fired, given);
      features := features + [f];
      calls := calls + multiset{Add(f)};
      var ready, pending := Sort(pendingResolutions);
      pendingResolutions := pending;
      var readyOptional, pendingOptional := Sort(pendingOptionalResolutions);
      pendingOptionalResolutions := pendingOptional;
      available := ready + readyOptional;
    }

    method CallAll(available: seq<Resolution>) returns (failed: bool)
      requires Sound()
      requires forall r <- available :: HonestAll(r.body) && Satisfied(features, r)
      modifies this
      ensures Value() == Exec(old(Value()), Fires(available)) && Sound()
      ensures failed == (available != [] &&
                         var last := |available| - 1;
                         Returned(Exec(old(Value()), Fires(available)[..last]), Fire(available[last])))
      decreases Weight(Value(), Fires(available)), 2
    {
      failed := false;
      ghost var s := Value();
      for i := 0 to |available|
        invariant Value() == Exec(s, Fires(available)[..i]) && Sound()
        invariant failed == (i != 0 && Returned(Exec(s, Fires(available)[..i - 1]), Fire(available[i - 1])))
      {
        PartWeight(s, Fires(available), i);
        ExecGrows(s, Fires(available)[..i]);
        failed := CallbackResolution(available[i]);
      }
      assert Fires(available)[..|available|] == Fires(available);
    }
  }

  // ---- the feature part of building an instance ----

  /** An application: the calls its constructor makes, whether that succeeds, and the feature it may be. */
  datatype App = App(setup: seq<Action>, created: bool, feature: Option<Feature>)

  /** The calls made for the first `n` applications. */
  function AppsCalls(apps: seq<App>, n: nat): seq<Action>
    requires n <= |apps|
  {
    if n == 0 then []
    else AppsCalls(apps, n - 1) + apps[n - 1].setup
         + if apps[n - 1].feature.Some? then [Add(apps[n - 1].feature.value)] else []
  }

  /** The state after some calls on a new instance, or on any. */
  ghost function After(s: State, calls: seq<Action>): State {
    Exec(s, Does(calls))
  }

  /** The essential features among the first `n` that are added because nothing has their type. */
  ghost function EssentialCalls(s: State, essential: seq<Feature>, n: nat): seq<Action>
    requires n <= |essential|
  {
    if n == 0 then []
    else
      var calls := EssentialCalls(s, essential, n - 1);
      if essential[n - 1].declared in Types(After(s, calls).features) then calls else calls + [Add(essential[n - 1])]
  }

  datatype Outcome = Built | ConstructorFailed | CallbackFailed | Unresolved

  ghost function InitCalls(apps: seq<App>, essential: seq<Feature>): seq<Action> {
    var calls := AppsCalls(apps, |apps|);
    calls + EssentialCalls(After(FRESH, calls), essential, |essential|)
  }

  predicate HonestApp(app: App) {
    HonestAll(app.setup) && (app.feature.Some? ==> Honest(app.feature.value))
  }

  lemma ExecCalls(s: State, a: seq<Action>, b: seq<Action>)
    ensures Exec(s, Does(a + b)) == Exec(Exec(s, Does(a)), Does(b))
  {
    assert Does(a + b) == Does(a) + Does(b);
    ExecAppend(s, Does(a), Does(b));
  }

  lemma ExecCall(s: State, a: seq<Action>, x: Action)
    ensures Exec(s, Does(a + [x])) == Exec(Exec(s, Does(a)), [Do(x)])
  {
    ExecCalls(s, a, [x]);
    assert Does([x]) == [Do(x)];
  }

  lemma NextApp(apps: seq<App>, i: nat)
    requires i < |apps|
    ensures var s := Exec(After(FRESH, AppsCalls(apps, i)), Does(apps[i].setup));
            After(FRESH, AppsCalls(apps, i + 1))
            == if apps[i].feature.Some? then Exec(s, [Do(Add(apps[i].feature.value))]) else s
  {
    var calls := AppsCalls(apps, i);
    ExecCalls(FRESH, calls, apps[i].setup);
    if apps[i].feature.Some? {
      ExecCall(FRESH, calls + apps[i].setup, Add(apps[i].feature.value));
    } else {
      assert AppsCalls(apps, i + 1) == calls + apps[i].setup;
    }
  }

  lemma NextEssential(s: State, essential: seq<Feature>, i: nat)
    requires i < |essential|
    ensures var t := After(s, EssentialCalls(s, essential, i));
            After(s, EssentialCalls(s, essential, i + 1))
            == if essential[i].declared in Types(t.features) then t else Exec(t, [Do(Add(essential[i]))])
  {
    ExecCall(s, EssentialCalls(s, essential, i), Add(essential[i]));
  }

  /** The instance once the i-th application has been constructed. */
  ghost function SetUp(apps: seq<App>, i: nat): State
    requires i < |apps|
  {
    Exec(After(FRESH, AppsCalls(apps, i)), Does(apps[i].setup))
  }

  /** Registering the i-th application returns an error. */
  ghost predicate AppErrs(apps: seq<App>, i: nat)
    requires i < |apps|
  {
    apps[i].created && apps[i].feature.Some? && Returned(SetUp(apps, i), Do(Add(apps[i].feature.value)))
  }

  ghost predicate AppsFine(apps: seq<App>, n: nat)
    requires n <= |apps|
  {
    forall j | 0 <= j < n :: apps[j].created && !AppErrs(apps, j)
  }

  /** The i-th essential feature is missing, and registering it returns an error. */
  ghost predicate EssentialErrs(s: State, essential: seq<Feature>, i: nat)
    requires i < |essential|
  {
    var t := After(s, EssentialCalls(s, essential, i));
    essential[i].declared !in Types(t.features) && Returned(t, Do(Add(essential[i])))
  }

  ghost predicate EssentialFine(s: State, essential: seq<Feature>, n: nat)
    requires n <= |essential|
  {
    forall j | 0 <= j < n :: !EssentialErrs(s, essential, j)
  }

  /** Building ends at the i-th application. */
  ghost predicate EndsAtApp(apps: seq<App>, i: nat, outcome: Outcome, s: State) {
    && i < |apps| && AppsFine(apps, i)
    && (if apps[i].created then outcome.CallbackFailed? && AppErrs(apps, i) && s == After(FRESH, AppsCalls(apps, i + 1))
        else outcome.ConstructorFailed? && s == SetUp(apps, i))
  }

  /** Building ends at the k-th essential feature, or after all of them. */
  ghost predicate EndsAtEssential(was: State, essential: seq<Feature>, k: nat, outcome: Outcome, s: State) {
    && k <= |essential| && EssentialFine(was, essential, k)
    && (if k < |essential|
        then outcome.CallbackFailed? && EssentialErrs(was, essential, k)
             && s == After(was, EssentialCalls(was, essential, k + 1))
        else s == After(was, EssentialCalls(was, essential, k))
             && outcome == if s.pending == [] then Built else Unresolved)
  }

  /** How building an instance ends, and what it leaves. */
  ghost predicate Ends(apps: seq<App>, essential: seq<Feature>, outcome: Outcome, s: State) {
    || (exists i :: EndsAtApp(apps, i, outcome, s))
    || (AppsFine(apps, |apps|) &&
        exists k :: EndsAtEssential(After(FRESH, AppsCalls(apps, |apps|)), essential, k, outcome, s))
  }

  lemma EndsAtOneEssential(was: State, essential: seq<Feature>, k: nat, k': nat, o: Outcome, s: State,
                           o': Outcome, s': State)
    requires EndsAtEssential(was, essential, k, o, s) && EndsAtEssential(was, essential, k', o', s')
    ensures o == o' && s == s'
  {
    assert k == k';
  }

  /** There is one way in which it ends. */
  lemma EndsOnce(apps: seq<App>, essential: seq<Feature>, o: Outcome, s: State, o': Outcome, s': State)
    requires Ends(apps, essential, o, s) && Ends(apps, essential, o', s')
    ensures o == o' && s == s'
  {
    if i :| EndsAtApp(apps, i, o, s) {
      if i' :| EndsAtApp(apps, i', o', s') {
        assert i == i';
      }
    } else {
      var was := After(FRESH, AppsCalls(apps, |apps|));
      var k :| EndsAtEssential(was, essential, k, o, s);
      if k' :| EndsAtEssential(was, essential, k', o', s') {
        EndsAtOneEssential(was, essential, k, k', o, s, o', s');
      }
    }
  }

  /** When everything goes well, all the calls have been made, and the outcome says whether anything is unresolved. */
  lemma EndsWell(apps: seq<App>, essential: seq<Feature>, outcome: Outcome, s: State)
    requires Ends(apps, essential, outcome, s) && (outcome.Built? || outcome.Unresolved?)
    ensures s == After(FRESH, InitCalls(apps, essential)) && (outcome.Built? <==> s.pending == [])
  {
    var calls := AppsCalls(apps, |apps|);
    ExecCalls(FRESH, calls, EssentialCalls(After(FRESH, calls), essential, |essential|));
  }

  ghost predicate SomeFailed(s: State) {
    exists r <- s.fired :: r.fails
  }

  lemma BlamedCall(s: State, f: Feature)
    requires Returned(s, Do(Add(f)))
    ensures SomeFailed(Exec(s, [Do(Add(f))]))
  {
    ReturnedIsReal(s, Do(Add(f)));
    var t := Exec(s, [Do(Add(f))]);
    var k :| |s.fired| <= k < |t.fired| && t.fired[k].fails;
    assert t.fired[k] in t.fired;
  }

  /** When a callback is blamed, one has failed by itself. */
  lemma BlameIsReal(apps: seq<App>, essential: seq<Feature>, s: State)
    requires Ends(apps, essential, CallbackFailed, s)
    ensures SomeFailed(s)
  {
    if i: nat :| EndsAtApp(apps, i, CallbackFailed, s) {
      AppBlameIsReal(apps, i, s);
    } else {
      EssentialBlameIsReal(After(FRESH, AppsCalls(apps, |apps|)), essential, s);
    }
  }

  lemma AppBlameIsReal(apps: seq<App>, i: nat, s: State)
    requires EndsAtApp(apps, i, CallbackFailed, s)
    ensures SomeFailed(s)
  {
    NextApp(apps, i);
    BlamedCall(SetUp(apps, i), apps[i].feature.value);
  }

  lemma EssentialBlameIsReal(was: State, essential: seq<Feature>, s: State)
    requires exists k :: EndsAtEssential(was, essential, k, CallbackFailed, s)
    ensures SomeFailed(s)
  {
    var k: nat :| EndsAtEssential(was, essential, k, CallbackFailed, s);
    NextEssential(was, essential, k);
    BlamedCall(After(was, EssentialCalls(was, essential, k)), essential[k]);
  }

  ghost predicate AppsSoFar(apps: seq<App>, i: nat, s: State) {
    i <= |apps| && s == After(FRESH, AppsCalls(apps, i)) && AppsFine(apps, i)
  }

  /** What constructing and registering an application does. */
  ghost predicate AppDone(app: App, s: State, t: State, failed: bool) {
    var u := Exec(s, Does(app.setup));
    if app.feature.None? then t == u && !failed
    else t == Exec(u, [Do(Add(app.feature.value))]) && failed == Returned(u, Do(Add(app.feature.value)))
  }

  lemma AppStep(apps: seq<App>, i: nat, s: State, t: State, failed: bool)
    requires i < |apps| && apps[i].created && AppsSoFar(apps, i, s) && AppDone(apps[i], s, t, failed)
    ensures failed ==> EndsAtApp(apps, i, CallbackFailed, t)
    ensures !failed ==> AppsSoFar(apps, i + 1, t)
  {
    NextApp(apps, i);
  }

  /** Constructs an application, and registers it if it is a feature. */
  method BuildApp(server: Instance, app: App) returns (failed: bool)
    requires server.Sound() && HonestApp(app)
    modifies server
    ensures server.Sound()
    ensures if app.created then AppDone(app, old(server.Value()), server.Value(), failed)
            else server.Value() == Exec(old(server.Value()), Does(app.setup))
  {
    var _ := server.RunBody(app.setup);
    failed := false;
    if app.created && app.feature.Some? {
      failed := server.AddFeature(app.feature.value);
    }
  }

  /** Builds the features of an instance: the applications, then the essential features that are missing. */
  method InitFeatures(apps: seq<App>, essential: seq<Feature>) returns (server: Instance, outcome: Outcome)
    requires forall app <- apps :: HonestApp(app)
    requires forall f <- essential :: Honest(f)
    ensures fresh(server)
    ensures Ends(apps, essential, outcome, server.Value()) && server.Sound()
  {
    server := new Instance();
    for i := 0 to |apps|
      invariant fresh(server)
      invariant AppsSoFar(apps, i, server.Value()) && server.Sound()
    {
      assert apps[i] in apps;
      ghost var was := server.Value();
      var failed := BuildApp(server, apps[i]);
      if !apps[i].created {
        assert EndsAtApp(apps, i, ConstructorFailed, server.Value());
        return server, ConstructorFailed;
      }
      AppStep(apps, i, was, server.Value(), failed);
      if failed {
        return server, CallbackFailed;
      }
    }
    outcome := AddEssential(server, essential);
  }

  method AddEssential(server: Instance, essential: seq<Feature>) returns (outcome: Outcome)
    requires server.Sound()
    requires forall f <- essential :: Honest(f)
    modifies server
    ensures exists k :: EndsAtEssential(old(server.Value()), essential, k, outcome, server.Value())
    ensures server.Sound()
  {
    ghost var s := server.Value();
    for i := 0 to |essential|
      invariant EssentialSoFar(s, essential, i, server.Value()) && server.Sound()
    {
      assert essential[i] in essential;
      ghost var before := server.Value();
      var failed := AddIfMissing(server, essential[i]);
      EssentialStep(s, essential, i, before, server.Value(), failed);
      if failed {
        return CallbackFailed;
      }
    }
    outcome := if server.pendingResolutions != [] then Unresolved else Built;
    assert EndsAtEssential(s, essential, |essential|, outcome, server.Value());
  }

  ghost predicate EssentialSoFar(s: State, essential: seq<Feature>, i: nat, t: State) {
    i <= |essential| && t == After(s, EssentialCalls(s, essential, i)) && EssentialFine(s, essential, i)
  }

  /** What registering a feature does if nothing has its type. */
  ghost predicate AddedIfMissing(s: State, f: Feature, t: State, failed: bool) {
    if f.declared in Types(s.features) then t == s && !failed
    else t == Exec(s, [Do(Add(f))]) && failed == Returned(s, Do(Add(f)))
  }

  lemma EssentialStep(s: State, essential: seq<Feature>, i: nat, t: State, t': State, failed: bool)
    requires i < |essential| && EssentialSoFar(s, essential, i, t) && AddedIfMissing(t, essential[i], t', failed)
    ensures failed ==> EndsAtEssential(s, essential, i, CallbackFailed, t')
    ensures !failed ==> EssentialSoFar(s, essential, i + 1, t')
  {
    NextEssential(s, essential, i);
  }

  method AddIfMissing(server: Instance, f: Feature) returns (failed: bool)
    requires server.Sound() && Honest(f)
    modifies server
    ensures server.Sound()
    ensures AddedIfMissing(old(server.Value()), f, server.Value(), failed)
  {
    var found := server.GetFeature(f.declared);
    if found.Some? {
      return false;
    }
    failed := server.AddFeature(f);
  }

  /** Nothing is pending exactly when every callback required without being optional has all its features. */
  lemma BuiltMeans(acts: seq<Action>)
    ensures var s := Exec(FRESH, Does(acts));
            s.pending == [] <==>
              forall a <- s.calls :: a.Require? && !a.resolution.optional ==> Satisfied(s.features, a.resolution)
  {
    var s := Exec(FRESH, Does(acts));
    forall a <- s.calls | a.Require? && !a.resolution.optional && !Satisfied(s.features, a.resolution)
      ensures a.resolution in s.pending
    {
      ExactlyOnce(acts, a.resolution);
    }
    if s.pending != [] {
      var r := s.pending[0];
      ExactlyOnce(acts, r);
      assert multiset(s.pending)[r] > 0;
      assert Require(r) in s.calls;
    }
  }

  predicate AllThere(s: State, essential: seq<Feature>, n: nat)
    requires n <= |essential|
  {
    forall k | 0 <= k < n :: essential[k].declared in Types(s.features)
  }

  /** All essential types are registered in the end, whatever the applications registered. */
  lemma {:induction false} EssentialThere(s: State, essential: seq<Feature>, n: nat)
    requires n <= |essential| && !s.running
    ensures Holding(After(s, EssentialCalls(s, essential, n)), essential, n)
  {
    if n == 0 {
      assert EssentialCalls(s, essential, 0) == [] && Does([]) == [];
      assert After(s, []) == s;
    } else {
      EssentialThere(s, essential, n - 1);
      EssentialMore(s, essential, n - 1);
    }
  }

  lemma EssentialMore(s: State, essential: seq<Feature>, n: nat)
    requires n < |essential| && Holding(After(s, EssentialCalls(s, essential, n)), essential, n)
    ensures Holding(After(s, EssentialCalls(s, essential, n + 1)), essential, n + 1)
  {
    NextEssential(s, essential, n);
    OneMoreThere(After(s, EssentialCalls(s, essential, n)), After(s, EssentialCalls(s, essential, n + 1)),
                 essential, n);
  }

  /** The first `n` essential types are registered. */
  ghost predicate Holding(s: State, essential: seq<Feature>, n: nat) {
    n <= |essential| && !s.running && AllThere(s, essential, n)
  }

  lemma OneMoreThere(s: State, t: State, essential: seq<Feature>, n: nat)
    requires n < |essential| && Holding(s, essential, n)
    requires t == if essential[n].declared in Types(s.features) then s else Exec(s, [Do(Add(essential[n]))])
    ensures Holding(t, essential, n + 1)
  {
    AddRegisters(s, essential[n]);
  }

  lemma AddRegisters(s: State, f: Feature)
    requires !s.running
    ensures var t := Exec(s, [Do(Add(f))]);
            !t.running && Types(s.features) + {f.declared} <= Types(t.features)
  {
    ExecStep(s, Do(Add(f)));
    TypesGrow(s.features, f);
    ExecGrows(AddStep(s, f), Fires(Available(s, f)));
    ExecStill(s, [Do(Add(f))]);
  }

  lemma {:induction false} ExecStill(s: State, work: seq<Work>)
    ensures Exec(s, work).running == s.running
    decreases Weight(s, work)
  {
    if work != [] {
      assert [work[0]] + work[1..] == work;
      StepWeight(s, work[0], work[1..]);
      ExecStill(Step(s, work[0]).0, Step(s, work[0]).1 + work[1..]);
    }
  }

  lemma Waits(s: State, r: Resolution)
    requires !Satisfied(s.features, r)
    ensures Exec(s, [Do(Require(r))]) == PendStep(s.(calls := s.calls + multiset{Require(r)}), r)
  {
    ExecStep(s, Do(Require(r)));
  }

  predicate Plain(r: Resolution, f: Feature) {
    r.deps == [f.declared] && r.body == [] && !r.optional
  }

  /** The error of a callback is lost when another callback that waited for the same feature succeeds after it. */
  lemma ErrorLost(f: Feature, bad: Resolution, good: Resolution)
    requires Plain(bad, f) && Plain(good, f) && bad.fails && !good.fails
    ensures var waiting := Exec(Exec(FRESH, [Do(Require(bad))]), [Do(Require(good))]);
            Available(waiting, f) == [bad, good] && !Returned(waiting, Do(Add(f)))
  {
    assert f.declared in bad.deps && f.declared in good.deps;
    Waits(FRESH, bad);
    var s := Exec(FRESH, [Do(Require(bad))]);
    assert s.features == [];
    Waits(s, good);
    var t := Exec(s, [Do(Require(good))]);
    assert t.pending == [bad, good] && t.optional == [];
    assert t.features + [f] == [f] && f in [f];
    assert Ready([f], t.pending, 1) == [bad];
    QuietCallback(BeforeLast(t, f), good);
  }
}
