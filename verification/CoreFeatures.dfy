/**
 Feature dependency resolution of a server instance: callbacks wait until all the features they need are
 registered, and may themselves register features and require others.
 */
module CoreFeatures {
  import opened Sequences

  type TypeName = string

  /** A feature, the type it is registered under, and the types its value is assignable to. */
  datatype Feature = Feature(declared: TypeName, assignableTo: set<TypeName>)

  /**
   A callback: its parameter types, the calls it makes on the instance, whether it fails by itself, and whether it
   returns the errors of the calls it makes.
   */
  datatype Resolution = Resolution(name: string, deps: seq<TypeName>, optional: bool, body: seq<Action>,
                                   fails: bool, passesOn: bool)

  /** A call on the instance. */
  datatype Action = Add(feature: Feature) | Require(resolution: Resolution)

  function Types(features: seq<Feature>): set<TypeName> {
    set f <- features :: f.declared
  }

  predicate Met(types: set<TypeName>, r: Resolution) {
    forall t <- r.deps :: t in types
  }

  predicate Satisfied(features: seq<Feature>, r: Resolution) {
    Met(Types(features), r)
  }

  // ---- the instance on values ----

  /** The fields of the instance, and the history: the callbacks called, and the calls made on the instance. */
  datatype State = State(features: seq<Feature>, pending: seq<Resolution>, optional: seq<Resolution>, running: bool,
                         fired: seq<Resolution>, calls: multiset<Action>)

  const FRESH := State([], [], [], false, [], multiset{})

  /** What is left to do: a call on the instance, or the call of a callback. */
  datatype Work = Do(action: Action) | Fire(resolution: Resolution)

  /** The resolutions among the first `n` that are satisfied, and those that are not, in order. */
  function Ready(features: seq<Feature>, rs: seq<Resolution>, n: nat): seq<Resolution>
    requires n <= |rs|
  {
    if n == 0 then []
    else if Satisfied(features, rs[n - 1]) then Ready(features, rs, n - 1) + [rs[n - 1]]
    else Ready(features, rs, n - 1)
  }

  function Waiting(features: seq<Feature>, rs: seq<Resolution>, n: nat): seq<Resolution>
    requires n <= |rs|
  {
    if n == 0 then []
    else if Satisfied(features, rs[n - 1]) then Waiting(features, rs, n - 1)
    else Waiting(features, rs, n - 1) + [rs[n - 1]]
  }

  function Fires(rs: seq<Resolution>): seq<Work> {
    seq(|rs|, k requires 0 <= k < |rs| => Fire(rs[k]))
  }

  function Does(acts: seq<Action>): seq<Work> {
    seq(|acts|, k requires 0 <= k < |acts| => Do(acts[k]))
  }

  /** Registering a feature: what waited for it leaves the pending lists. */
  function AddStep(s: State, f: Feature): State {
    var features := s.features + [f];
    s.(features := features, calls := s.calls + multiset{Add(f)},
       pending := Waiting(features, s.pending, |s.pending|), optional := Waiting(features, s.optional, |s.optional|))
  }

  /** The callbacks that registering a feature calls. */
  function Available(s: State, f: Feature): seq<Resolution> {
    var features := s.features + [f];
    Ready(features, s.pending, |s.pending|) + Ready(features, s.optional, |s.optional|)
  }

  lemma {:induction false} ReadyGrows(features: seq<Feature>, rs: seq<Resolution>, i: nat, n: nat)
    requires i < n <= |rs| && Satisfied(features, rs[i])
    ensures var (ready, p) := (Ready(features, rs, n), |Ready(features, rs, i)|);
            p < |ready| && ready[p] == rs[i] && Ready(features, rs, i + 1) <= ready
  {
    if i + 1 < n {
      ReadyGrows(features, rs, i, n - 1);
    }
  }

  /** The place of `a` in a list comes before that of `b`. */
  predicate Before<T(==)>(s: seq<T>, a: T, b: T) {
    exists p, q :: 0 <= p < q < |s| && s[p] == a && s[q] == b
  }

  /** They are called in the order in which they were required, those that are not optional first. */
  lemma CalledInOrder(s: State, f: Feature, i: nat, j: nat)
    ensures var features := s.features + [f];
            && (i < j < |s.pending| && Satisfied(features, s.pending[i]) && Satisfied(features, s.pending[j])
                ==> Before(Available(s, f), s.pending[i], s.pending[j]))
            && (i < j < |s.optional| && Satisfied(features, s.optional[i]) && Satisfied(features, s.optional[j])
                ==> Before(Available(s, f), s.optional[i], s.optional[j]))
            && (i < |s.pending| && j < |s.optional| && Satisfied(features, s.pending[i])
                && Satisfied(features, s.optional[j])
                ==> Before(Available(s, f), s.pending[i], s.optional[j]))
  {
    var features := s.features + [f];
    ReadyInOrder(features, s.pending, i, j);
    ReadyInOrder(features, s.optional, i, j);
    var (a, b) := (Ready(features, s.pending, |s.pending|), Ready(features, s.optional, |s.optional|));
    BeforeAppend(a, b);
    if i < |s.pending| && Satisfied(features, s.pending[i]) {
      ReadyGrows(features, s.pending, i, |s.pending|);
    }
    if j < |s.optional| && Satisfied(features, s.optional[j]) {
      ReadyGrows(features, s.optional, j, |s.optional|);
    }
  }

  lemma ReadyInOrder(features: seq<Feature>, rs: seq<Resolution>, i: nat, j: nat)
    ensures i < j < |rs| && Satisfied(features, rs[i]) && Satisfied(features, rs[j])
            ==> Before(Ready(features, rs, |rs|), rs[i], rs[j])
  {
    if i < j < |rs| && Satisfied(features, rs[i]) && Satisfied(features, rs[j]) {
      ReadyGrows(features, rs, i, j);
      ReadyGrows(features, rs, i, |rs|);
      ReadyGrows(features, rs, j, |rs|);
      var (p, q) := (|Ready(features, rs, i)|, |Ready(features, rs, j)|);
      assert Ready(features, rs, |rs|)[p] == rs[i] && Ready(features, rs, |rs|)[q] == rs[j];
    }
  }

  lemma BeforeAppend<T>(a: seq<T>, b: seq<T>)
    ensures forall x, y | Before(a, x, y) || Before(b, x, y) || (x in a && y in b) :: Before(a + b, x, y)
  {
    forall x, y | Before(a, x, y) || Before(b, x, y) || (x in a && y in b) ensures Before(a + b, x, y) {
      if p, q :| 0 <= p < q < |a| && a[p] == x && a[q] == y {
        assert (a + b)[p] == x && (a + b)[q] == y;
      } else if p, q :| 0 <= p < q < |b| && b[p] == x && b[q] == y {
        assert (a + b)[|a| + p] == x && (a + b)[|a| + q] == y;
      } else {
        var p :| 0 <= p < |a| && a[p] == x;
        var q :| 0 <= q < |b| && b[q] == y;
        assert (a + b)[p] == x && (a + b)[|a| + q] == y;
      }
    }
  }

  /** Requiring features that are not all there. */
  function PendStep(s: State, r: Resolution): State {
    if r.optional then s.(optional := s.optional + [r]) else s.(pending := s.pending + [r])
  }

  /** One step: what it leaves of the state, and the work that takes its place. */
  function Step(s: State, w: Work): (State, seq<Work>) {
    match w
    case Do(Add(f)) => if s.running then (s, []) else (AddStep(s, f), Fires(Available(s, f)))
    case Do(Require(r)) =>
      var s' := s.(calls := s.calls + multiset{Require(r)});
      if Satisfied(s.features, r) then (s', [Fire(r)]) else (PendStep(s', r), [])
    case Fire(r) => (s.(fired := s.fired + [r]), Does(r.body))
  }

  // ---- termination: the callbacks still to come ----

  function ActionWeight(a: Action): nat
    decreases a
  {
    match a
    case Add(_) => 1
    case Require(r) => 2 + ActionsWeight(r.body)
  }

  function ActionsWeight(acts: seq<Action>): nat
    decreases acts
  {
    if acts == [] then 0 else ActionWeight(acts[0]) + ActionsWeight(acts[1..])
  }

  function ResolutionWeight(r: Resolution): nat {
    1 + ActionsWeight(r.body)
  }

  function ListWeight(rs: seq<Resolution>): nat {
    if rs == [] then 0 else ListWeight(rs[..|rs| - 1]) + ResolutionWeight(rs[|rs| - 1])
  }

  function WorkWeight(work: seq<Work>): nat {
    if work == [] then 0
    else
      (if work[0].Do? then ActionWeight(work[0].action) else ResolutionWeight(work[0].resolution))
      + WorkWeight(work[1..])
  }

  function Weight(s: State, work: seq<Work>): nat {
    ListWeight(s.pending) + ListWeight(s.optional) + WorkWeight(work)
  }

  lemma {:induction false} WorkWeightAppend(a: seq<Work>, b: seq<Work>)
    ensures WorkWeight(a + b) == WorkWeight(a) + WorkWeight(b)
  {
    if a == [] {
      assert a + b == b;
    } else {
      WorkWeightAppend(a[1..], b);
      assert (a + b)[1..] == a[1..] + b;
    }
  }

  lemma {:induction false} FiresWeight(rs: seq<Resolution>)
    ensures WorkWeight(Fires(rs)) == ListWeight(rs)
  {
    if rs != [] {
      var k := |rs| - 1;
      FiresWeight(rs[..k]);
      assert Fires(rs) == Fires(rs[..k]) + [Fire(rs[k])];
      WorkWeightAppend(Fires(rs[..k]), [Fire(rs[k])]);
    }
  }

  lemma {:induction false} DoesWeight(acts: seq<Action>)
    ensures WorkWeight(Does(acts)) == ActionsWeight(acts)
  {
    if acts != [] {
      DoesWeight(acts[1..]);
      assert Does(acts)[1..] == Does(acts[1..]);
    }
  }

  lemma ListWeightSnoc(rs: seq<Resolution>, r: Resolution)
    ensures ListWeight(rs + [r]) == ListWeight(rs) + ResolutionWeight(r)
  {
    assert (rs + [r])[..|rs|] == rs;
  }

  lemma {:induction false} SplitWeight(features: seq<Feature>, rs: seq<Resolution>, n: nat)
    requires n <= |rs|
    ensures ListWeight(Ready(features, rs, n)) + ListWeight(Waiting(features, rs, n)) == ListWeight(rs[..n])
  {
    if n != 0 {
      SplitWeight(features, rs, n - 1);
      TakeNext(rs, n - 1);
      ListWeightSnoc(rs[..n - 1], rs[n - 1]);
      if Satisfied(features, rs[n - 1]) {
        ListWeightSnoc(Ready(features, rs, n - 1), rs[n - 1]);
      } else {
        ListWeightSnoc(Waiting(features, rs, n - 1), rs[n - 1]);
      }
    }
  }

  lemma FiresAppend(a: seq<Resolution>, b: seq<Resolution>)
    ensures Fires(a + b) == Fires(a) + Fires(b)
  {
  }

  lemma AddWeight(s: State, f: Feature)
    ensures Weight(AddStep(s, f), Fires(Available(s, f))) == Weight(s, [])
  {
    var features := s.features + [f];
    SplitWeight(features, s.pending, |s.pending|);
    SplitWeight(features, s.optional, |s.optional|);
    assert s.pending[..|s.pending|] == s.pending && s.optional[..|s.optional|] == s.optional;
    var (a, b) := (Ready(features, s.pending, |s.pending|), Ready(features, s.optional, |s.optional|));
    FiresAppend(a, b);
    WorkWeightAppend(Fires(a), Fires(b));
    FiresWeight(a);
    FiresWeight(b);
  }

  lemma StepWeight(s: State, w: Work, rest: seq<Work>)
    ensures var (s', more) := Step(s, w);
            Weight(s', more + rest) < Weight(s, [w] + rest)
  {
    var (s', more) := Step(s, w);
    WorkWeightAppend(more, rest);
    WorkWeightAppend([w], rest);
    match w
    case Do(Add(f)) => AddWeight(s, f);
    case Do(Require(r)) => ListWeightSnoc(s.optional, r); ListWeightSnoc(s.pending, r);
    case Fire(r) => DoesWeight(r.body);
  }

  /** Everything that follows from some work, callbacks in callbacks included. */
  function Exec(s: State, work: seq<Work>): State
    decreases Weight(s, work)
  {
    if work == [] then s
    else
      var (s', more) := Step(s, work[0]);
      StepWeight(s, work[0], work[1..]);
      assert [work[0]] + work[1..] == work;
      Exec(s', more + work[1..])
  }

  /** Nested calls return before what follows them goes on: work can be run one piece after the other. */
  lemma {:induction false} ExecAppend(s: State, a: seq<Work>, b: seq<Work>)
    ensures Exec(s, a + b) == Exec(Exec(s, a), b)
    decreases Weight(s, a)
  {
    if a == [] {
      assert a + b == b;
    } else {
      var (s', more) := Step(s, a[0]);
      StepWeight(s, a[0], a[1..]);
      assert [a[0]] + a[1..] == a;
      ExecAppend(s', more + a[1..], b);
      assert (a + b)[1..] == a[1..] + b;
      assert more + (a[1..] + b) == (more + a[1..]) + b;
    }
  }

  lemma ExecStep(s: State, w: Work)
    ensures Exec(s, [w]) == Exec(Step(s, w).0, Step(s, w).1)
  {
    assert Step(s, w).1 + [w][1..] == Step(s, w).1;
  }

  // ---- every callback runs exactly once, as soon as it can ----

  /** No entry of the pending lists could be called, and every callback that was called, or is about to be, can be. */
  predicate Settled(s: State, work: seq<Work>) {
    && (forall r <- s.pending :: !Satisfied(s.features, r) && !r.optional)
    && (forall r <- s.optional :: !Satisfied(s.features, r) && r.optional)
    && (forall r <- s.fired :: Satisfied(s.features, r))
    && (forall w <- work :: w.Fire? ==> Satisfied(s.features, w.resolution))
  }

  /** How often a callback is in the history, in a pending list or among the work. */
  function Places(s: State, work: seq<Work>, r: Resolution): nat {
    multiset(s.fired)[r] + multiset(s.pending)[r] + multiset(s.optional)[r] + multiset(work)[Fire(r)]
  }

  /** Every callback is somewhere, once for each time it was required; so is every feature. */
  ghost predicate Accounted(s: State, work: seq<Work>) {
    && (forall r :: Places(s, work, r) == s.calls[Require(r)])
    && (forall f :: multiset(s.features)[f] == s.calls[Add(f)])
  }

  ghost predicate Invariant(s: State, work: seq<Work>) {
    Settled(s, work) && Accounted(s, work)
  }

  lemma {:induction false} Sorted(features: seq<Feature>, rs: seq<Resolution>, n: nat)
    requires n <= |rs|
    ensures forall r <- Ready(features, rs, n) :: Satisfied(features, r) && r in rs
    ensures forall r <- Waiting(features, rs, n) :: !Satisfied(features, r) && r in rs
    ensures multiset(Ready(features, rs, n)) + multiset(Waiting(features, rs, n)) == multiset(rs[..n])
  {
    if n != 0 {
      Sorted(features, rs, n - 1);
      TakeNext(rs, n - 1);
    }
  }

  lemma {:induction false} FiresCount(rs: seq<Resolution>, r: Resolution)
    ensures multiset(Fires(rs))[Fire(r)] == multiset(rs)[r]
  {
    if rs != [] {
      var k := |rs| - 1;
      FiresCount(rs[..k], r);
      assert Fires(rs) == Fires(rs[..k]) + [Fire(rs[k])];
      assert rs == rs[..k] + [rs[k]];
    }
  }

  lemma DoesCount(acts: seq<Action>, r: Resolution)
    ensures multiset(Does(acts))[Fire(r)] == 0
  {
    assert Fire(r) !in Does(acts);
  }

  lemma TypesGrow(features: seq<Feature>, f: Feature)
    ensures Types(features + [f]) == Types(features) + {f.declared}
  {
    assert forall g :: g in features + [f] <==> g in features || g == f;
    assert f in features + [f];
  }

  lemma AddSettled(s: State, f: Feature, rest: seq<Work>)
    requires Settled(s, [Do(Add(f))] + rest)
    ensures Settled(AddStep(s, f), Fires(Available(s, f)) + rest)
  {
    var features := s.features + [f];
    TypesGrow(s.features, f);
    Sorted(features, s.pending, |s.pending|);
    Sorted(features, s.optional, |s.optional|);
    assert forall w <- rest :: w in [Do(Add(f))] + rest;
  }

  lemma CountAppend(a: seq<Resolution>, b: seq<Resolution>, r: Resolution)
    ensures multiset(a + b)[r] == multiset(a)[r] + multiset(b)[r]
  {
  }

  /** A list, sorted into what is ready and what must wait. */
  lemma SortedCount(features: seq<Feature>, rs: seq<Resolution>, r: Resolution)
    ensures multiset(Ready(features, rs, |rs|))[r] + multiset(Waiting(features, rs, |rs|))[r] == multiset(rs)[r]
  {
    Sorted(features, rs, |rs|);
    assert rs[..|rs|] == rs;
  }

  lemma AddPlaces(s: State, f: Feature, rest: seq<Work>, r: Resolution)
    ensures Places(AddStep(s, f), Fires(Available(s, f)) + rest, r) == Places(s, [Do(Add(f))] + rest, r)
  {
    var features := s.features + [f];
    SortedCount(features, s.pending, r);
    SortedCount(features, s.optional, r);
    var (a, b) := (Ready(features, s.pending, |s.pending|), Ready(features, s.optional, |s.optional|));
    FiresCount(a + b, r);
    CountAppend(a, b, r);
    WorkCount(Fires(a + b), rest, r);
    WorkCount([Do(Add(f))], rest, r);
  }

  lemma WorkCount(a: seq<Work>, b: seq<Work>, r: Resolution)
    ensures multiset(a + b)[Fire(r)] == multiset(a)[Fire(r)] + multiset(b)[Fire(r)]
  {
  }

  lemma RequireSettled(s: State, q: Resolution, rest: seq<Work>)
    requires Settled(s, [Do(Require(q))] + rest)
    ensures Settled(Step(s, Do(Require(q))).0, Step(s, Do(Require(q))).1 + rest)
  {
    assert forall x <- rest :: x in [Do(Require(q))] + rest;
  }

  lemma FireSettled(s: State, q: Resolution, rest: seq<Work>)
    requires Settled(s, [Fire(q)] + rest)
    ensures Settled(Step(s, Fire(q)).0, Step(s, Fire(q)).1 + rest)
  {
    assert forall x <- rest :: x in [Fire(q)] + rest;
    assert Fire(q) in [Fire(q)] + rest;
  }

  /** A step changes where a callback is; only requiring it adds one. */
  lemma StepPlaces(s: State, w: Work, rest: seq<Work>, r: Resolution)
    requires !s.running
    ensures Places(Step(s, w).0, Step(s, w).1 + rest, r)
         == Places(s, [w] + rest, r) + (if w == Do(Require(r)) then 1 else 0)
  {
    WorkCount([w], rest, r);
    WorkCount(Step(s, w).1, rest, r);
    match w
    case Do(Add(f)) => AddPlaces(s, f, rest, r);
    case Do(Require(q)) =>
    case Fire(q) => DoesCount(q.body, r);
  }

  lemma StepCalls(s: State, w: Work, a: Action)
    requires !s.running
    ensures Step(s, w).0.calls[a] == s.calls[a] + (if w == Do(a) then 1 else 0)
    ensures !Step(s, w).0.running
  {
  }

  lemma StepFeatures(s: State, w: Work, f: Feature)
    requires !s.running
    ensures multiset(Step(s, w).0.features)[f] == multiset(s.features)[f] + (if w == Do(Add(f)) then 1 else 0)
  {
  }

  lemma StepAccounted(s: State, w: Work, rest: seq<Work>)
    requires Accounted(s, [w] + rest)
    requires !s.running
    ensures Accounted(Step(s, w).0, Step(s, w).1 + rest)
  {
    var (s', more) := Step(s, w);
    forall r ensures Places(s', more + rest, r) == s'.calls[Require(r)] {
      StepPlaces(s, w, rest, r);
      StepCalls(s, w, Require(r));
    }
    forall f ensures multiset(s'.features)[f] == s'.calls[Add(f)] {
      StepFeatures(s, w, f);
      StepCalls(s, w, Add(f));
    }
  }

  lemma StepSettled(s: State, w: Work, rest: seq<Work>)
    requires Settled(s, [w] + rest)
    requires !s.running
    ensures Settled(Step(s, w).0, Step(s, w).1 + rest)
    ensures !Step(s, w).0.running
  {
    match w
    case Do(Add(f)) => AddSettled(s, f, rest);
    case Do(Require(q)) => RequireSettled(s, q, rest);
    case Fire(q) => FireSettled(s, q, rest);
  }

  /** Every run keeps the invariant, whatever the callbacks do, and ends with nothing left to call. */
  lemma {:induction false} ExecKeeps(s: State, work: seq<Work>)
    requires Invariant(s, work) && !s.running
    ensures Invariant(Exec(s, work), []) && !Exec(s, work).running
    decreases Weight(s, work)
  {
    if work != [] {
      assert [work[0]] + work[1..] == work;
      StepWeight(s, work[0], work[1..]);
      StepSettled(s, work[0], work[1..]);
      StepAccounted(s, work[0], work[1..]);
      ExecKeeps(Step(s, work[0]).0, Step(s, work[0]).1 + work[1..]);
    }
  }

  lemma FreshInvariant(acts: seq<Action>)
    ensures Invariant(FRESH, Does(acts)) && !FRESH.running
  {
    forall q ensures Places(FRESH, Does(acts), q) == FRESH.calls[Require(q)] { DoesCount(acts, q); }
  }

  /** Exactly once: a callback has run as often as it was required if all its types are registered, else not at all. */
  lemma ExactlyOnce(acts: seq<Action>, r: Resolution)
    ensures var s := Exec(FRESH, Does(acts));
            && multiset(s.fired)[r] == (if Satisfied(s.features, r) then s.calls[Require(r)] else 0)
            && multiset(s.pending)[r] == (if Satisfied(s.features, r) || r.optional then 0 else s.calls[Require(r)])
            && multiset(s.optional)[r] == (if Satisfied(s.features, r) || !r.optional then 0 else s.calls[Require(r)])
  {
    FreshInvariant(acts);
    ExecKeeps(FRESH, Does(acts));
    var s := Exec(FRESH, Does(acts));
    assert Places(s, [], r) == s.calls[Require(r)];
  }

  // ---- the order of the calls does not matter ----

  /** All the calls that a call leads to, once the features of `types` are registered. */
  function Total(types: set<TypeName>, a: Action): multiset<Action>
    decreases a
  {
    match a
    case Add(_) => multiset{a}
    case Require(r) => multiset{a} + (if Met(types, r) then TotalAll(types, r.body) else multiset{})
  }

  function TotalAll(types: set<TypeName>, acts: seq<Action>): multiset<Action>
    decreases acts
  {
    if acts == [] then multiset{} else Total(types, acts[0]) + TotalAll(types, acts[1..])
  }

  function TotalWork(types: set<TypeName>, work: seq<Work>): multiset<Action> {
    if work == [] then multiset{}
    else (if work[0].Do? then Total(types, work[0].action) else TotalAll(types, work[0].resolution.body))
         + TotalWork(types, work[1..])
  }

  /** The calls that waiting callbacks will make. */
  function TotalList(types: set<TypeName>, rs: seq<Resolution>): multiset<Action> {
    if rs == [] then multiset{}
    else var r := rs[|rs| - 1];
         TotalList(types, rs[..|rs| - 1]) + (if Met(types, r) then TotalAll(types, r.body) else multiset{})
  }

  /** The calls made, and those to come. */
  function Potential(types: set<TypeName>, s: State, work: seq<Work>): multiset<Action> {
    s.calls + TotalWork(types, work) + TotalList(types, s.pending) + TotalList(types, s.optional)
  }

  lemma {:induction false} TotalWorkAppend(types: set<TypeName>, a: seq<Work>, b: seq<Work>)
    ensures TotalWork(types, a + b) == TotalWork(types, a) + TotalWork(types, b)
  {
    if a == [] {
      assert a + b == b;
    } else {
      TotalWorkAppend(types, a[1..], b);
      assert (a + b)[1..] == a[1..] + b;
    }
  }

  lemma TotalOne(types: set<TypeName>, w: Work)
    ensures TotalWork(types, [w]) == if w.Do? then Total(types, w.action) else TotalAll(types, w.resolution.body)
  {
    assert [w][1..] == [];
  }

  lemma {:induction false} TotalDoes(types: set<TypeName>, acts: seq<Action>)
    ensures TotalWork(types, Does(acts)) == TotalAll(types, acts)
  {
    if acts != [] {
      TotalDoes(types, acts[1..]);
      assert Does(acts)[1..] == Does(acts[1..]);
    }
  }

  lemma {:induction false} TotalFires(types: set<TypeName>, rs: seq<Resolution>)
    requires forall r <- rs :: Met(types, r)
    ensures TotalWork(types, Fires(rs)) == TotalList(types, rs)
  {
    if rs != [] {
      var k := |rs| - 1;
      TotalFires(types, rs[..k]);
      assert Fires(rs) == Fires(rs[..k]) + [Fire(rs[k])];
      TotalWorkAppend(types, Fires(rs[..k]), [Fire(rs[k])]);
      TotalOne(types, Fire(rs[k]));
    }
  }

  lemma TotalListSnoc(types: set<TypeName>, rs: seq<Resolution>, r: Resolution)
    ensures TotalList(types, rs + [r])
         == TotalList(types, rs) + if Met(types, r) then TotalAll(types, r.body) else multiset{}
  {
    assert (rs + [r])[..|rs|] == rs;
  }

  lemma {:induction false} TotalSplit(types: set<TypeName>, features: seq<Feature>, rs: seq<Resolution>, n: nat)
    requires n <= |rs|
    ensures TotalList(types, Ready(features, rs, n)) + TotalList(types, Waiting(features, rs, n))
         == TotalList(types, rs[..n])
  {
    if n != 0 {
      TotalSplit(types, features, rs, n - 1);
      TakeNext(rs, n - 1);
      TotalListSnoc(types, rs[..n - 1], rs[n - 1]);
      if Satisfied(features, rs[n - 1]) {
        TotalListSnoc(types, Ready(features, rs, n - 1), rs[n - 1]);
      } else {
        TotalListSnoc(types, Waiting(features, rs, n - 1), rs[n - 1]);
      }
    }
  }

  lemma {:induction false} TotalWaiting(types: set<TypeName>, rs: seq<Resolution>)
    requires forall r <- rs :: !Met(types, r)
    ensures TotalList(types, rs) == multiset{}
  {
    if rs != [] {
      TotalWaiting(types, rs[..|rs| - 1]);
    }
  }

  /** What a list will call, once its entries are sorted into those that are called now and those that wait. */
  function TotalParts(types: set<TypeName>, ready: seq<Resolution>, waiting: seq<Resolution>): multiset<Action> {
    TotalWork(types, Fires(ready)) + TotalList(types, waiting)
  }

  lemma {:induction false} ReadyPotential(types: set<TypeName>, features: seq<Feature>, rs: seq<Resolution>,
                                          ready: seq<Resolution>, waiting: seq<Resolution>)
    requires Types(features) <= types
    requires ready == Ready(features, rs, |rs|) && waiting == Waiting(features, rs, |rs|)
    ensures TotalParts(types, ready, waiting) == TotalList(types, rs)
  {
    Sorted(features, rs, |rs|);
    TotalSplit(types, features, rs, |rs|);
    assert rs[..|rs|] == rs;
    TotalFires(types, ready);
  }

  lemma Regroup(calls: multiset<Action>, one: multiset<Action>, a: multiset<Action>, b: multiset<Action>,
                c: multiset<Action>, d: multiset<Action>)
    ensures ((calls + one) + (a + b)) + c + d == ((calls + one) + (a + c)) + (b + d)
  {
  }

  lemma AddPotential(types: set<TypeName>, s: State, f: Feature)
    requires Types(AddStep(s, f).features) <= types
    ensures Potential(types, AddStep(s, f), Fires(Available(s, f))) == Potential(types, s, [Do(Add(f))])
  {
    var features := s.features + [f];
    var (a, b) := (Ready(features, s.pending, |s.pending|), Ready(features, s.optional, |s.optional|));
    ReadyPotential(types, features, s.pending, a, AddStep(s, f).pending);
    ReadyPotential(types, features, s.optional, b, AddStep(s, f).optional);
    FiresAppend(a, b);
    TotalWorkAppend(types, Fires(a), Fires(b));
    TotalOne(types, Do(Add(f)));
    Regroup(s.calls, multiset{Add(f)}, TotalWork(types, Fires(a)), TotalWork(types, Fires(b)),
            TotalList(types, AddStep(s, f).pending), TotalList(types, AddStep(s, f).optional));
  }

  /** A step makes one call, and takes nothing else from what is to come. */
  lemma StepPotential(types: set<TypeName>, s: State, w: Work)
    requires Types(Step(s, w).0.features) <= types && !s.running
    ensures Potential(types, Step(s, w).0, Step(s, w).1) == Potential(types, s, [w])
  {
    match w
    case Do(Add(f)) => AddPotential(types, s, f);
    case Do(Require(r)) => RequirePotential(types, s, r);
    case Fire(r) => FirePotential(types, s, r);
  }

  lemma RequirePotential(types: set<TypeName>, s: State, r: Resolution)
    requires Types(s.features) <= types
    ensures var (s', more) := Step(s, Do(Require(r)));
            Potential(types, s', more) == Potential(types, s, [Do(Require(r))])
  {
    TotalOne(types, Do(Require(r)));
    var one := multiset{Require(r)};
    var x := if Met(types, r) then TotalAll(types, r.body) else multiset{};
    var (p, o) := (TotalList(types, s.pending), TotalList(types, s.optional));
    if Satisfied(s.features, r) {
      TotalOne(types, Fire(r));
      Sums(s.calls, one, x);
    } else if r.optional {
      TotalListSnoc(types, s.optional, r);
      LaterOptional(s.calls, one, x, p, o);
    } else {
      TotalListSnoc(types, s.pending, r);
      LaterPending(s.calls, one, x, p, o);
    }
  }

  lemma LaterPending(calls: multiset<Action>, one: multiset<Action>, x: multiset<Action>, p: multiset<Action>,
                     o: multiset<Action>)
    ensures ((calls + one) + multiset{}) + (p + x) + o == (calls + (one + x)) + p + o
  {
  }

  lemma LaterOptional(calls: multiset<Action>, one: multiset<Action>, x: multiset<Action>, p: multiset<Action>,
                      o: multiset<Action>)
    ensures ((calls + one) + multiset{}) + p + (o + x) == (calls + (one + x)) + p + o
  {
  }

  lemma FirePotential(types: set<TypeName>, s: State, r: Resolution)
    ensures Potential(types, Step(s, Fire(r)).0, Does(r.body)) == Potential(types, s, [Fire(r)])
  {
    TotalOne(types, Fire(r));
    TotalDoes(types, r.body);
  }

  lemma PotentialRest(types: set<TypeName>, s: State, a: seq<Work>, rest: seq<Work>)
    ensures Potential(types, s, a + rest) == Potential(types, s, a) + TotalWork(types, rest)
  {
    TotalWorkAppend(types, a, rest);
  }

  lemma StepGrows(s: State, w: Work)
    ensures Types(s.features) <= Types(Step(s, w).0.features)
  {
    if w.Do? && w.action.Add? {
      TypesGrow(s.features, w.action.feature);
    }
  }

  lemma {:induction false} ExecGrows(s: State, work: seq<Work>)
    ensures Types(s.features) <= Types(Exec(s, work).features)
    decreases Weight(s, work)
  {
    if work != [] {
      assert [work[0]] + work[1..] == work;
      StepWeight(s, work[0], work[1..]);
      StepGrows(s, work[0]);
      ExecGrows(Step(s, work[0]).0, Step(s, work[0]).1 + work[1..]);
    }
  }

  /** The calls made and to come, under the types registered in the end, are the same all along a run. */
  lemma {:induction false} ExecPotential(types: set<TypeName>, s: State, work: seq<Work>)
    requires Types(Exec(s, work).features) <= types && !s.running
    ensures Potential(types, Exec(s, work), []) == Potential(types, s, work)
    decreases Weight(s, work)
  {
    if work != [] {
      assert [work[0]] + work[1..] == work;
      var (s', more) := Step(s, work[0]);
      StepWeight(s, work[0], work[1..]);
      ExecGrows(s', more + work[1..]);
      StepPotential(types, s, work[0]);
      PotentialRest(types, s, [work[0]], work[1..]);
      PotentialRest(types, s', more, work[1..]);
      StepCalls(s, work[0], Add(Feature("", {})));
      ExecPotential(types, s', more + work[1..]);
    }
  }

  /** Every feature that some calls register has a type among `types`. */
  predicate Closed(types: set<TypeName>, calls: multiset<Action>) {
    forall a <- calls :: a.Add? ==> a.feature.declared in types
  }

  /** A run registers only types of a set that is closed under what the run may call. */
  lemma {:induction false} ExecWithin(types: set<TypeName>, s: State, work: seq<Work>)
    requires Closed(types, Potential(types, s, work)) && Types(s.features) <= types && !s.running
    ensures Types(Exec(s, work).features) <= types
    decreases Weight(s, work)
  {
    if work != [] {
      assert [work[0]] + work[1..] == work;
      var (s', more) := Step(s, work[0]);
      StepWeight(s, work[0], work[1..]);
      if work[0].Do? && work[0].action.Add? {
        assert work[0].action in Potential(types, s, work);
        TypesGrow(s.features, work[0].action.feature);
      }
      StepPotential(types, s, work[0]);
      PotentialRest(types, s, [work[0]], work[1..]);
      PotentialRest(types, s', more, work[1..]);
      StepCalls(s, work[0], Add(Feature("", {})));
      ExecWithin(types, s', more + work[1..]);
    }
  }

  /**
   The calls of a whole run, callbacks' calls included, are those its top-level calls lead to under the types
   registered in the end; and these types are the least set that is closed under them.
   */
  lemma RunIsLeast(acts: seq<Action>)
    ensures var s := Exec(FRESH, Does(acts));
            && s.calls == TotalAll(Types(s.features), acts)
            && Closed(Types(s.features), s.calls)
            && forall types | Closed(types, TotalAll(types, acts)) :: Types(s.features) <= types
  {
    RunIsTotal(acts);
    forall types | Closed(types, TotalAll(types, acts)) ensures Types(Exec(FRESH, Does(acts)).features) <= types {
      FreshPotential(types, acts);
      ExecWithin(types, FRESH, Does(acts));
    }
  }

  lemma FreshPotential(types: set<TypeName>, acts: seq<Action>)
    ensures Potential(types, FRESH, Does(acts)) == TotalAll(types, acts)
  {
    TotalDoes(types, acts);
  }

  lemma RunIsTotal(acts: seq<Action>)
    ensures var s := Exec(FRESH, Does(acts));
            s.calls == TotalAll(Types(s.features), acts) && Closed(Types(s.features), s.calls)
  {
    var s := Exec(FRESH, Does(acts));
    var final := Types(s.features);
    FreshInvariant(acts);
    ExecKeeps(FRESH, Does(acts));
    ExecPotential(final, FRESH, Does(acts));
    FreshPotential(final, acts);
    TotalWaiting(final, s.pending);
    TotalWaiting(final, s.optional);
    assert TotalWork(final, []) == multiset{};
    forall a <- s.calls | a.Add? ensures a.feature.declared in final {
      assert multiset(s.features)[a.feature] == s.calls[Add(a.feature)];
      assert a.feature in s.features;
    }
  }

  lemma Sums(a: multiset<Action>, b: multiset<Action>, c: multiset<Action>)
    ensures (a + b) + c == a + (b + c)
  {
  }

  lemma Rotate(a: multiset<Action>, b: multiset<Action>, c: multiset<Action>)
    ensures a + (b + c) == b + (a + c)
  {
  }

  lemma TotalAllStep(types: set<TypeName>, x: Action, rest: seq<Action>)
    ensures TotalAll(types, [x] + rest) == Total(types, x) + TotalAll(types, rest)
  {
    assert ([x] + rest)[1..] == rest;
  }

  lemma {:induction false} TotalAllAppend(types: set<TypeName>, a: seq<Action>, b: seq<Action>)
    ensures TotalAll(types, a + b) == TotalAll(types, a) + TotalAll(types, b)
  {
    if a == [] {
      assert a + b == b;
    } else {
      var (x, rest) := (a[0], a[1..]);
      calc {
        TotalAll(types, a + b);
        { assert a + b == [x] + (rest + b); TotalAllStep(types, x, rest + b); }
        Total(types, x) + TotalAll(types, rest + b);
        { TotalAllAppend(types, rest, b); }
        Total(types, x) + (TotalAll(types, rest) + TotalAll(types, b));
        { Sums(Total(types, x), TotalAll(types, rest), TotalAll(types, b)); }
        (Total(types, x) + TotalAll(types, rest)) + TotalAll(types, b);
        { assert a == [x] + rest; TotalAllStep(types, x, rest); }
        TotalAll(types, a) + TotalAll(types, b);
      }
    }
  }

  lemma Insert<T>(x: T, rest: seq<T>, before: seq<T>, after: seq<T>)
    requires multiset([x] + rest) == multiset(before + ([x] + after))
    ensures multiset(rest) == multiset(before + after)
  {
    assert multiset([x] + rest) == multiset{x} + multiset(rest);
    assert multiset(before + ([x] + after)) == multiset{x} + multiset(before + after);
    assert multiset(rest) == (multiset{x} + multiset(rest)) - multiset{x};
    assert multiset(before + after) == (multiset{x} + multiset(before + after)) - multiset{x};
  }

  lemma {:induction false} TotalPermuted(types: set<TypeName>, a: seq<Action>, b: seq<Action>)
    requires multiset(a) == multiset(b)
    ensures TotalAll(types, a) == TotalAll(types, b)
  {
    if a == [] {
      assert |multiset(b)| == |b|;
    } else {
      assert a[0] in multiset(b);
      var i :| 0 <= i < |b| && b[i] == a[0];
      var (before, after) := (b[..i], b[i + 1..]);
      assert b == before + ([a[0]] + after);
      assert a == [a[0]] + a[1..];
      Insert(a[0], a[1..], before, after);
      TotalPermuted(types, a[1..], before + after);
      TotalAllAppend(types, before, after);
      TotalAllAppend(types, before, [a[0]] + after);
      assert ([a[0]] + after)[1..] == after;
      Rotate(Total(types, a[0]), TotalAll(types, before), TotalAll(types, after));
    }
  }

  /**
   Whatever the order of the calls, the same features are registered, the same callbacks have been called, as
   often, and the same ones are left waiting.
   */
  lemma OrderIndependent(a: seq<Action>, b: seq<Action>)
    requires multiset(a) == multiset(b)
    ensures SameOutcome(Exec(FRESH, Does(a)), Exec(FRESH, Does(b)))
  {
    var (s, t) := (Exec(FRESH, Does(a)), Exec(FRESH, Does(b)));
    SameCalls(a, b);
    forall f ensures multiset(s.features)[f] == multiset(t.features)[f] {
      FeatureCount(a, f);
      FeatureCount(b, f);
    }
    forall r ensures multiset(s.fired)[r] == multiset(t.fired)[r] && multiset(s.pending)[r] == multiset(t.pending)[r]
                  && multiset(s.optional)[r] == multiset(t.optional)[r] {
      ExactlyOnce(a, r);
      ExactlyOnce(b, r);
    }
  }

  predicate SameOutcome(s: State, t: State) {
    && multiset(s.features) == multiset(t.features) && s.calls == t.calls
    && multiset(s.fired) == multiset(t.fired)
    && multiset(s.pending) == multiset(t.pending) && multiset(s.optional) == multiset(t.optional)
  }

  lemma SameCalls(a: seq<Action>, b: seq<Action>)
    requires multiset(a) == multiset(b)
    ensures var (s, t) := (Exec(FRESH, Does(a)), Exec(FRESH, Does(b)));
            Types(s.features) == Types(t.features) && s.calls == t.calls
  {
    var (x, y) := (Types(Exec(FRESH, Does(a)).features), Types(Exec(FRESH, Does(b)).features));
    RunIsLeast(a);
    RunIsLeast(b);
    TotalPermuted(y, a, b);
    TotalPermuted(x, a, b);
  }

  lemma FeatureCount(acts: seq<Action>, f: Feature)
    ensures var s := Exec(FRESH, Does(acts)); multiset(s.features)[f] == s.calls[Add(f)]
  {
    FreshInvariant(acts);
    ExecKeeps(FRESH, Does(acts));
  }
}
