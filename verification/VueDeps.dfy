/**
 Dependency tracking: watchers collect the deps they touch while they are evaluated, and deps keep the list
 of their subscribers. Both sides are updated in place and have to agree.
 */
module VueDeps {

  class Dep {
    const id: nat
    var subs: seq<Watcher>

    constructor (id: nat)
      ensures this.id == id && subs == []
    {
      this.id, subs := id, [];
    }

    method AddSub(sub: Watcher)
      modifies this
      ensures subs == old(subs) + [sub]
    {
      subs := subs + [sub];
    }

    /** `remove`: the first occurrence is spliced out, if there is one. */
    method RemoveSub(sub: Watcher)
      modifies this
      ensures multiset(subs) == multiset(old(subs)) - multiset{sub}
    {
      var i := 0;
      while i < |subs| && subs[i] != sub
        invariant 0 <= i <= |subs| && sub !in subs[..i]
      {
        i := i + 1;
      }
      assert subs == subs[..i] + subs[i..];
      if i < |subs| {
        assert subs[i..] == [sub] + subs[i + 1..];
        subs := subs[..i] + subs[i + 1..];
      } else {
        assert sub !in subs;
      }
    }
  }

  ghost predicate NoDup(s: seq<Dep>) {
    forall i, j :: 0 <= i < j < |s| ==> s[i] != s[j]
  }

  function Ids(s: seq<Dep>): set<nat> {
    set d | d in s :: d.id
  }

  function Members(s: seq<Dep>): set<Dep> {
    set d | d in s
  }

  /** Different deps have different ids. */
  ghost predicate UniqueIds(deps: set<Dep>) {
    forall a, b :: a in deps && b in deps && a.id == b.id ==> a == b
  }

  class Watcher {
    const id: nat
    var deps: seq<Dep>
    var newDeps: seq<Dep>
    var depIds: set<nat>
    var newDepIds: set<nat>

    constructor (id: nat)
      ensures this.id == id && deps == newDeps == [] && depIds == newDepIds == {}
    {
      this.id := id;
      deps, newDeps, depIds, newDepIds := [], [], {}, {};
    }

    /** The lists and id sets of the watcher fit together. */
    ghost predicate Tidy(all: set<Dep>)
      reads this
    {
      && NoDup(deps) && NoDup(newDeps) && depIds == Ids(deps) && newDepIds == Ids(newDeps)
      && (forall d <- deps :: d in all) && (forall d <- newDeps :: d in all)
    }

    /** The watcher is subscribed once to each dep it has, or is collecting, and to no other. */
    ghost predicate Subscribed(all: set<Dep>)
      reads this, all
    {
      forall d <- all :: multiset(d.subs)[this] == if d in deps || d in newDeps then 1 else 0
    }

    method AddDep(dep: Dep, ghost all: set<Dep>)
      requires UniqueIds(all) && dep in all && Tidy(all) && Subscribed(all)
      modifies this, dep
      ensures Tidy(all) && Subscribed(all) && deps == old(deps)
      ensures forall d :: d in newDeps <==> d in old(newDeps) || d == dep
      ensures forall w: Watcher :: w != this ==> multiset(dep.subs)[w] == multiset(old(dep.subs))[w]
    {
      var id := dep.id;
      if id !in newDepIds {
        assert dep !in newDeps;
        newDepIds := newDepIds + {id};
        newDeps := newDeps + [dep];
        if id !in depIds {
          dep.AddSub(this);
        }
      }
    }

    /** Unsubscribes from a dep, unless it is being collected again. */
    method Forget(dep: Dep, ghost all: set<Dep>)
      requires UniqueIds(all) && dep in all && newDepIds == Ids(newDeps) && forall d <- newDeps :: d in all
      modifies dep
      ensures multiset(dep.subs)[this] == if dep in newDeps || multiset(old(dep.subs))[this] == 0
                                          then multiset(old(dep.subs))[this] else multiset(old(dep.subs))[this] - 1
      ensures forall w: Watcher :: w != this ==> multiset(dep.subs)[w] == multiset(old(dep.subs))[w]
    {
      if dep.id !in newDepIds {
        dep.RemoveSub(this);
      } else {
        assert exists d :: d in newDeps && d.id == dep.id;
      }
    }

    /** Unsubscribes from what was not touched again, then swaps the lists and the id sets. */
    method CleanupDeps(ghost all: set<Dep>)
      requires UniqueIds(all) && Tidy(all) && Subscribed(all)
      modifies this, deps
      ensures Tidy(all) && Subscribed(all) && deps == old(newDeps) && newDeps == []
      ensures forall d <- all, w: Watcher :: w != this ==> multiset(d.subs)[w] == multiset(old(d.subs))[w]
    {
      var i := |deps|;
      while i > 0
        invariant 0 <= i <= |deps| && deps == old(deps) && newDeps == old(newDeps)
        invariant depIds == old(depIds) && newDepIds == old(newDepIds)
        invariant forall d <- all :: multiset(d.subs)[this] == if d in newDeps || d in deps[..i] then 1 else 0
        invariant forall d <- all, w: Watcher :: w != this ==> multiset(d.subs)[w] == multiset(old(d.subs))[w]
      {
        i := i - 1;
        var dep := deps[i];
        assert deps[..i + 1] == deps[..i] + [dep] && dep !in deps[..i];
        Forget(dep, all);
      }
      depIds, newDepIds := newDepIds, depIds;
      newDepIds := {};
      deps, newDeps := newDeps, deps;
      newDeps := [];
    }
  }

  /** What a getter does: it touches deps and evaluates other watchers. */
  datatype Act = Touch(dep: Dep) | Eval(watcher: Watcher, body: seq<Act>)

  /** The deps touched by the getter itself, not by the watchers it evaluates. */
  function Touched(acts: seq<Act>): set<Dep> {
    if acts == [] then {} else (if acts[0].Touch? then {acts[0].dep} else {}) + Touched(acts[1..])
  }

  /** The watchers evaluated on the way. */
  function Evaluated(acts: seq<Act>): set<Watcher> {
    if acts == [] then {}
    else (if acts[0].Eval? then {acts[0].watcher} + Evaluated(acts[0].body) else {}) + Evaluated(acts[1..])
  }

  /** What a watcher touches in its last evaluation on the way. */
  function LastTouched(acts: seq<Act>, w: Watcher): set<Dep> {
    if acts == [] then {}
    else if w in Evaluated(acts[1..]) then LastTouched(acts[1..], w)
    else TouchedIn(acts[0], w)
  }

  function TouchedIn(act: Act, w: Watcher): set<Dep> {
    match act
    case Touch(_) => {}
    case Eval(v, body) => if w == v then Touched(body) else LastTouched(body, w)
  }

  /** Everything involved is known, and no watcher is evaluated while it is being evaluated. */
  predicate Plain(acts: seq<Act>, busy: set<Watcher>, watchers: set<Watcher>, all: set<Dep>) {
    acts == [] ||
    (&& (match acts[0]
         case Touch(d) => d in all
         case Eval(w, body) => w in watchers && w !in busy && Plain(body, busy + {w}, watchers, all))
     && Plain(acts[1..], busy, watchers, all))
  }

  lemma {:induction false} PlainAvoidsBusy(acts: seq<Act>, busy: set<Watcher>, watchers: set<Watcher>, all: set<Dep>)
    requires Plain(acts, busy, watchers, all)
    ensures Evaluated(acts) !! busy && Evaluated(acts) <= watchers && Touched(acts) <= all
    decreases acts
  {
    if acts != [] {
      if acts[0].Eval? {
        PlainAvoidsBusy(acts[0].body, busy + {acts[0].watcher}, watchers, all);
      }
      PlainAvoidsBusy(acts[1..], busy, watchers, all);
    }
  }

  function OnStack(stack: seq<Watcher>): set<Watcher> {
    set w | w in stack
  }

  class Runtime {
    var targetStack: seq<Watcher>
    ghost var watchers: set<Watcher>
    ghost var all: set<Dep>

    /** `Dep.target` is the top of the stack. */
    ghost predicate Consistent()
      reads this, watchers, all
    {
      && UniqueIds(all)
      && (forall w <- targetStack :: w in watchers)
      && (forall w <- watchers :: w.Tidy(all) && w.Subscribed(all))
      && (forall w <- watchers :: w !in targetStack ==> w.newDeps == [])
    }

    constructor ()
      ensures Consistent() && Distinct() && targetStack == [] && watchers == {} && all == {}
    {
      targetStack, watchers, all := [], {}, {};
    }

    /** A new watcher has no deps, and no dep knows it. */
    method AddWatcher(id: nat) returns (w: Watcher)
      requires Consistent()
      modifies this
      ensures Consistent() && fresh(w) && w.id == id
      ensures watchers == old(watchers) + {w} && all == old(all) && targetStack == old(targetStack)
    {
      w := new Watcher(id);
      assert forall d <- all :: w !in d.subs;
      watchers := watchers + {w};
    }

    /** A new dep, under an id of its own, has no subscribers. */
    method AddDep(id: nat) returns (d: Dep)
      requires Consistent() && forall e <- all :: e.id != id
      modifies this
      ensures Consistent() && fresh(d) && d.id == id
      ensures all == old(all) + {d} && watchers == old(watchers) && targetStack == old(targetStack)
    {
      d := new Dep(id);
      assert forall w <- watchers :: d !in w.deps && d !in w.newDeps;
      all := all + {d};
    }

    /** `depend`: the current target, if there is one, adds the dep. */
    method Depend(dep: Dep)
      requires Consistent() && dep in all
      modifies watchers, all
      ensures Consistent()
      ensures forall w <- watchers :: w.deps == old(w.deps)
      ensures forall w <- watchers :: targetStack == [] || w != Target() ==> w.newDeps == old(w.newDeps)
      ensures targetStack != [] ==> Members(Target().newDeps) == Members(old(Target().newDeps)) + {dep}
    {
      if targetStack != [] {
        Target().AddDep(dep, all);
      }
    }

    function Target(): Watcher
      requires targetStack != []
      reads this
    {
      targetStack[|targetStack| - 1]
    }

    ghost predicate Distinct()
      reads this
    {
      forall i, j :: 0 <= i < j < |targetStack| ==> targetStack[i] != targetStack[j]
    }

    /** The getter of the watcher on top of the stack runs. */
    method RunGetter(acts: seq<Act>)
      requires Consistent() && Distinct() && targetStack != []
      requires Plain(acts, OnStack(targetStack), watchers, all)
      modifies `targetStack, watchers, all
      ensures Consistent() && targetStack == old(targetStack)
      ensures Target().deps == old(Target().deps)
      ensures Members(Target().newDeps) == Members(old(Target().newDeps)) + Touched(acts)
      ensures forall v <- Evaluated(acts) :: Members(v.deps) == LastTouched(acts, v)
      ensures forall v <- watchers :: v != Target() && v !in Evaluated(acts)
                                      ==> v.deps == old(v.deps) && v.newDeps == old(v.newDeps)
      decreases acts, 0
    {
      if acts == [] {
        return;
      }
      PlainAvoidsBusy(acts, OnStack(targetStack), watchers, all);
      RunAct(acts[0]);
      RunGetter(acts[1..]);
    }

    /** One thing that the getter of the watcher on top of the stack does. */
    method RunAct(act: Act)
      requires Consistent() && Distinct() && targetStack != []
      requires match act
               case Touch(d) => d in all
               case Eval(w, body) => w in watchers && w !in targetStack
                                     && Plain(body, OnStack(targetStack) + {w}, watchers, all)
      modifies `targetStack, watchers, all
      ensures Consistent() && targetStack == old(targetStack)
      ensures act.Eval? ==> forall v <- watchers :: v != act.watcher && v !in Evaluated(act.body)
                                                    ==> v.deps == old(v.deps) && v.newDeps == old(v.newDeps)
      ensures act.Eval? ==> forall v <- {act.watcher} + Evaluated(act.body) :: Members(v.deps) == TouchedIn(act, v)
      ensures act.Touch? ==> forall v <- watchers ::
                v.deps == old(v.deps) && (v != Target() ==> v.newDeps == old(v.newDeps))
      ensures act.Touch? ==> Members(Target().newDeps) == Members(old(Target().newDeps)) + {act.dep}
      decreases act, 2
    {
      match act {
        case Touch(dep) => Depend(dep);
        case Eval(watcher, body) => Get(watcher, body);
      }
    }

    /** `popTarget` and the clean-up of the watcher that was on top. */
    method Finish()
      requires Consistent() && Distinct() && targetStack != []
      modifies `targetStack, watchers, all
      ensures Consistent() && targetStack == old(targetStack)[..|old(targetStack)| - 1]
      ensures var w := old(Target()); w.deps == old(w.newDeps) && w.newDeps == []
      ensures forall v <- watchers :: v != old(Target()) ==> v.deps == old(v.deps) && v.newDeps == old(v.newDeps)
    {
      var watcher := Target();
      targetStack := targetStack[..|targetStack| - 1];
      assert watcher !in targetStack && watcher in watchers && watcher.Tidy(all);
      watcher.CleanupDeps(all);
    }

    /**
     Evaluates a watcher and collects its deps anew: afterwards it occurs once among the subscribers of
     each dep touched in this evaluation, and among no others. The same goes for every watcher evaluated
     on the way, and what it touched in its last evaluation.
     */
    method Get(watcher: Watcher, acts: seq<Act>)
      requires Consistent() && Distinct() && watcher in watchers && watcher !in targetStack
      requires Plain(acts, OnStack(targetStack) + {watcher}, watchers, all)
      modifies `targetStack, watchers, all
      ensures Consistent() && targetStack == old(targetStack)
      ensures forall d <- all :: multiset(d.subs)[watcher] == if d in Touched(acts) then 1 else 0
      ensures Members(watcher.deps) == Touched(acts)
      ensures forall v <- Evaluated(acts) :: Members(v.deps) == LastTouched(acts, v)
      ensures forall v <- Evaluated(acts), d <- all ::
                multiset(d.subs)[v] == if d in LastTouched(acts, v) then 1 else 0
      ensures forall v <- watchers :: v != watcher && v !in Evaluated(acts)
                                      ==> v.deps == old(v.deps) && v.newDeps == old(v.newDeps)
      decreases acts, 1
    {
      ghost var stack := targetStack;
      targetStack := targetStack + [watcher];
      assert OnStack(targetStack) == OnStack(stack) + {watcher};
      RunGetter(acts);
      Finish();
      assert targetStack == stack;
      SubscribedToDeps(watcher, Touched(acts));
      PlainAvoidsBusy(acts, OnStack(stack) + {watcher}, watchers, all);
      forall v <- Evaluated(acts), d <- all
        ensures multiset(d.subs)[v] == if d in LastTouched(acts, v) then 1 else 0
      {
        assert v in watchers && v !in OnStack(stack) + {watcher};
        SubscribedToDeps(v, LastTouched(acts, v));
      }
    }

    /** What `Subscribed` says once nothing is being collected. */
    lemma SubscribedToDeps(w: Watcher, touched: set<Dep>)
      requires Consistent() && w in watchers && w.newDeps == [] && Members(w.deps) == touched
      ensures forall d <- all :: multiset(d.subs)[w] == if d in touched then 1 else 0
    {
      assert forall d :: d in w.deps <==> d in Members(w.deps);
    }
  }
}
