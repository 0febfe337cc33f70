/**
 The watcher scheduler: `queueWatcher` splices into the queue that `flushSchedulerQueue` is draining.
 The queue implements a plain set of pending watchers of which the least one runs next.
 */
module VueScheduler {

  const MAX_UPDATE_COUNT := 100

  /**
   Watchers are known by their ids. `Done` marks the end of a watcher's run, `Dropped` the end of a flush that was
   cut off: what is still pending then is forgotten.
   */
  datatype Event = Queued(id: nat) | Ran(id: nat) | Done(id: nat) | Dropped

  /** What one watcher does when its turn comes: the watchers queued by its `before` hook and by its run. */
  datatype Turn = Turn(before: seq<nat>, during: seq<nat>)

  const QUIET := Turn([], [])

  function TurnAt(script: seq<Turn>, k: nat): Turn {
    if k < |script| then script[k] else QUIET
  }

  // ---- the plain scheduler ----

  function Set(s: seq<nat>): (r: set<nat>)
    ensures forall x :: x in r <==> x in s
  {
    set x | x in s
  }

  lemma {:induction false} LeastExists(s: set<nat>) returns (m: nat)
    requires s != {}
    ensures m in s && forall x :: x in s ==> m <= x
    decreases |s|
  {
    var y :| y in s;
    m := y;
    if s != {y} {
      var l := LeastExists(s - {y});
      m := if y < l then y else l;
    }
    forall x | x in s
      ensures m <= x
    {
      assert x == y || x in s - {y};
    }
  }

  ghost function Least(s: set<nat>): (m: nat)
    requires s != {}
    ensures m in s && forall x :: x in s ==> m <= x
  {
    assert exists m :: m in s && forall x :: x in s ==> m <= x by { var l := LeastExists(s); }
    var m :| m in s && forall x :: x in s ==> m <= x;
    m
  }

  function Requests(ids: seq<nat>): seq<Event> {
    if ids == [] then [] else [Queued(ids[0])] + Requests(ids[1..])
  }

  function Count(circular: map<nat, nat>, id: nat): nat {
    if id in circular then circular[id] else 0
  }

  datatype Outcome = Outcome(events: seq<Event>, cut: bool)

  /**
   The plain flush: as long as watchers are pending, the least one runs; it is cut off when a watcher has
   queued itself again during its own run too often.
   */
  ghost function PlainFlush(pending: set<nat>, script: seq<Turn>, k: nat, circular: map<nat, nat>): Outcome
    decreases if k < |script| then |script| - k else 0, |pending|
  {
    if pending == {} then Outcome([], false)
    else
      var w, turn := Least(pending), TurnAt(script, k);
      var after := AfterTurn(pending, w, turn);
      var circular' := Charge(circular, w, after);
      if w in after && Count(circular', w) > MAX_UPDATE_COUNT then Outcome(TurnEvents(w, turn), true)
      else
        TurnShrinks(pending, w, script, k);
        var rest := PlainFlush(after, script, k + 1, circular');
        Outcome(TurnEvents(w, turn) + rest.events, rest.cut)
  }

  /** A watcher that is pending again after its own run is charged for it. */
  function Charge(circular: map<nat, nat>, w: nat, after: set<nat>): map<nat, nat> {
    if w in after then circular[w := Count(circular, w) + 1] else circular
  }

  lemma QuietTurnShrinks(pending: set<nat>, w: nat)
    requires w in pending
    ensures AfterTurn(pending, w, QUIET) == pending - {w} && |pending - {w}| < |pending|
  {}

  /** Once the script is used up, every turn leaves less to do. */
  lemma TurnShrinks(pending: set<nat>, w: nat, script: seq<Turn>, k: nat)
    requires w in pending
    ensures k >= |script| ==> |AfterTurn(pending, w, TurnAt(script, k))| < |pending|
  {
    QuietTurnShrinks(pending, w);
  }

  // ---- what the events mean ----

  function Affect(pending: set<nat>, e: Event): set<nat> {
    match e
    case Queued(id) => pending + {id}
    case Ran(id) => pending - {id}
    case Done(_) => pending
    case Dropped => {}
  }

  /** The watchers pending after some events: queued since they last ran, and not dropped. */
  function Pending(before: set<nat>, trace: seq<Event>): set<nat>
    decreases |trace|
  {
    if trace == [] then before else Pending(Affect(before, trace[0]), trace[1..])
  }

  /** No watcher runs unless it has been queued since it last ran. */
  predicate Justified(before: set<nat>, trace: seq<Event>)
    decreases |trace|
  {
    trace == [] ||
    ((trace[0].Ran? ==> trace[0].id in before) && Justified(Affect(before, trace[0]), trace[1..]))
  }

  /** A request that has been followed by a run of the same watcher. */
  ghost predicate Served(trace: seq<Event>, k: nat)
    requires k < |trace| && trace[k].Queued?
  {
    exists j :: k < j < |trace| && trace[j] == Ran(trace[k].id)
  }

  /** How often a watcher was taken into the queue. */
  function Accepted(before: set<nat>, trace: seq<Event>, id: nat): nat
    decreases |trace|
  {
    if trace == [] then 0
    else (if trace[0] == Queued(id) && id !in before then 1 else 0) + Accepted(Affect(before, trace[0]), trace[1..], id)
  }

  /** How often a watcher ran. */
  function Runs(trace: seq<Event>, id: nat): nat {
    if trace == [] then 0 else (if trace[0] == Ran(id) then 1 else 0) + Runs(trace[1..], id)
  }

  /** How often a watcher was pending when a flush was cut off. */
  function Drops(before: set<nat>, trace: seq<Event>, id: nat): nat
    decreases |trace|
  {
    if trace == [] then 0
    else (if trace[0].Dropped? && id in before then 1 else 0) + Drops(Affect(before, trace[0]), trace[1..], id)
  }

  /** A flush was cut off after the k-th event. */
  predicate CutAfter(trace: seq<Event>, k: nat) {
    exists j :: k < j < |trace| && trace[j] == Dropped
  }

  lemma {:induction false} Concat(before: set<nat>, a: seq<Event>, b: seq<Event>)
    ensures Pending(before, a + b) == Pending(Pending(before, a), b)
    ensures Justified(before, a + b) <==> Justified(before, a) && Justified(Pending(before, a), b)
    decreases |a|
  {
    if a == [] {
      assert a + b == b;
    } else {
      Concat(Affect(before, a[0]), a[1..], b);
      assert (a + b)[1..] == a[1..] + b;
    }
  }

  lemma {:induction false} RanWhenServed(before: set<nat>, trace: seq<Event>, id: nat)
    requires id in before && id !in Pending(before, trace)
    ensures exists j :: 0 <= j < |trace| && (trace[j] == Ran(id) || trace[j] == Dropped)
    decreases |trace|
  {
    if trace[0] != Ran(id) && trace[0] != Dropped {
      RanWhenServed(Affect(before, trace[0]), trace[1..], id);
      var j :| 0 <= j < |trace[1..]| && (trace[1..][j] == Ran(id) || trace[1..][j] == Dropped);
      assert trace[j + 1] == Ran(id) || trace[j + 1] == Dropped;
    }
  }

  /** A request for a watcher that is not left pending has been served, or a flush was cut off since. */
  lemma {:induction false} NotPendingServed(before: set<nat>, trace: seq<Event>, k: nat)
    requires k < |trace| && trace[k].Queued? && trace[k].id !in Pending(before, trace)
    ensures Served(trace, k) || CutAfter(trace, k)
    decreases |trace|
  {
    var id, rest := trace[k].id, trace[1..];
    if k == 0 {
      RanWhenServed(Affect(before, trace[0]), rest, id);
      var j :| 0 <= j < |rest| && (rest[j] == Ran(id) || rest[j] == Dropped);
      assert trace[j + 1] == rest[j];
    } else {
      NotPendingServed(Affect(before, trace[0]), rest, k - 1);
      if CutAfter(rest, k - 1) {
        var j :| k - 1 < j < |rest| && rest[j] == Dropped;
        assert trace[j + 1] == Dropped;
      } else {
        var j :| k - 1 < j < |rest| && rest[j] == Ran(id);
        assert trace[j + 1] == Ran(id);
      }
    }
  }

  /** Every time a watcher is taken into the queue it runs once, unless it is dropped or still pending. */
  lemma {:induction false} OncePerQueueing(before: set<nat>, trace: seq<Event>, id: nat)
    requires Justified(before, trace)
    ensures Accepted(before, trace, id) + (if id in before then 1 else 0)
            == Runs(trace, id) + Drops(before, trace, id) + (if id in Pending(before, trace) then 1 else 0)
    decreases |trace|
  {
    if trace != [] {
      OncePerQueueing(Affect(before, trace[0]), trace[1..], id);
    }
  }

  lemma {:induction false} PendingRequests(before: set<nat>, ids: seq<nat>)
    ensures Pending(before, Requests(ids)) == before + Set(ids) && Justified(before, Requests(ids))
    decreases |ids|
  {
    if ids != [] {
      PendingRequests(before + {ids[0]}, ids[1..]);
      assert Requests(ids)[1..] == Requests(ids[1..]);
      assert Set(ids) == {ids[0]} + Set(ids[1..]);
    }
  }

  /** The events of one watcher's turn. */
  function TurnEvents(w: nat, turn: Turn): seq<Event> {
    (Requests(turn.before) + [Ran(w)]) + (Requests(turn.during) + [Done(w)])
  }

  function AfterTurn(pending: set<nat>, w: nat, turn: Turn): set<nat> {
    (pending + Set(turn.before) - {w}) + Set(turn.during)
  }

  lemma TurnServes(pending: set<nat>, w: nat, turn: Turn)
    requires w in pending
    ensures Justified(pending, TurnEvents(w, turn))
    ensures Pending(pending, TurnEvents(w, turn)) == AfterTurn(pending, w, turn)
  {
    var p1 := pending + Set(turn.before);
    PendingRequests(pending, turn.before);
    Concat(pending, Requests(turn.before), [Ran(w)]);
    assert Pending(p1, [Ran(w)]) == p1 - {w} && Justified(p1, [Ran(w)]);
    PendingRequests(p1 - {w}, turn.during);
    Concat(p1 - {w}, Requests(turn.during), [Done(w)]);
    var p2 := p1 - {w} + Set(turn.during);
    assert Pending(p2, [Done(w)]) == p2 && Justified(p2, [Done(w)]);
    Concat(pending, Requests(turn.before) + [Ran(w)], Requests(turn.during) + [Done(w)]);
  }

  /** Every run was asked for, and unless the flush was cut off nothing is left pending. */
  ghost predicate FlushServed(pending: set<nat>, o: Outcome) {
    Justified(pending, o.events) && (!o.cut ==> Pending(pending, o.events) == {})
  }

  lemma TurnThen(pending: set<nat>, w: nat, turn: Turn, rest: Outcome, o: Outcome)
    requires w in pending && FlushServed(AfterTurn(pending, w, turn), rest)
    requires o == Outcome(TurnEvents(w, turn) + rest.events, rest.cut)
    ensures FlushServed(pending, o)
  {
    TurnServes(pending, w, turn);
    Concat(pending, TurnEvents(w, turn), rest.events);
  }

  lemma TurnAlone(pending: set<nat>, w: nat, turn: Turn, o: Outcome)
    requires w in pending && o == Outcome(TurnEvents(w, turn), true)
    ensures FlushServed(pending, o)
  {
    TurnServes(pending, w, turn);
  }

  /**
   The plain flush serves everything: unless it is cut off, nothing is left pending, and every run it makes
   was asked for.
   */
  lemma {:induction false} PlainFlushServes(pending: set<nat>, script: seq<Turn>, k: nat, circular: map<nat, nat>)
    ensures FlushServed(pending, PlainFlush(pending, script, k, circular))
    decreases if k < |script| then |script| - k else 0, |pending|
  {
    var o := PlainFlush(pending, script, k, circular);
    if pending != {} {
      var w, turn := Least(pending), TurnAt(script, k);
      var after := AfterTurn(pending, w, turn);
      var circular' := Charge(circular, w, after);
      if w in after && Count(circular', w) > MAX_UPDATE_COUNT {
        TurnAlone(pending, w, turn, o);
      } else {
        TurnShrinks(pending, w, script, k);
        PlainFlushServes(after, script, k + 1, circular');
        FlushUnfolds(pending, script, k, circular);
        TurnThen(pending, w, turn, PlainFlush(after, script, k + 1, circular'), o);
      }
    }
  }

  /** A flush that is not cut off at once is a turn, and a flush. */
  lemma FlushUnfolds(pending: set<nat>, script: seq<Turn>, k: nat, circular: map<nat, nat>)
    requires pending != {}
    requires var w := Least(pending);
             var after := AfterTurn(pending, w, TurnAt(script, k));
             !(w in after && Count(Charge(circular, w, after), w) > MAX_UPDATE_COUNT)
    ensures var (w, turn) := (Least(pending), TurnAt(script, k));
            var after := AfterTurn(pending, w, turn);
            var rest := PlainFlush(after, script, k + 1, Charge(circular, w, after));
            PlainFlush(pending, script, k, circular) == Outcome(TurnEvents(w, turn) + rest.events, rest.cut)
  {
  }

  /** Every run is of the least of the watchers that were pending when its turn began: these are `start`. */
  predicate InOrder(start: set<nat>, pending: set<nat>, trace: seq<Event>)
    decreases |trace|
  {
    trace == [] ||
    (var after := Affect(pending, trace[0]);
     && (trace[0].Ran? ==> forall x <- start :: trace[0].id <= x)
     && InOrder(if trace[0].Done? then after else start, after, trace[1..]))
  }

  lemma {:induction false} RequestsInOrder(start: set<nat>, pending: set<nat>, ids: seq<nat>, rest: seq<Event>)
    ensures InOrder(start, pending, Requests(ids) + rest) <==> InOrder(start, pending + Set(ids), rest)
    decreases |ids|
  {
    if ids == [] {
      assert [] + rest == rest && pending + Set(ids) == pending;
    } else {
      RequestsInOrder(start, pending + {ids[0]}, ids[1..], rest);
      assert (Requests(ids) + rest)[1..] == Requests(ids[1..]) + rest;
      assert pending + {ids[0]} + Set(ids[1..]) == pending + Set(ids);
    }
  }

  lemma OneInOrder(start: set<nat>, pending: set<nat>, e: Event, rest: seq<Event>)
    ensures InOrder(start, pending, [e] + rest)
            <==> (e.Ran? ==> forall x <- start :: e.id <= x)
                 && InOrder(if e.Done? then Affect(pending, e) else start, Affect(pending, e), rest)
  {
    assert ([e] + rest)[1..] == rest;
  }

  lemma TurnInOrder(pending: set<nat>, w: nat, turn: Turn, rest: seq<Event>)
    requires w in pending && forall x <- pending :: w <= x
    requires InOrder(AfterTurn(pending, w, turn), AfterTurn(pending, w, turn), rest)
    ensures InOrder(pending, pending, TurnEvents(w, turn) + rest)
  {
    var third := [Done(w)] + rest;
    var second := [Ran(w)] + (Requests(turn.during) + third);
    Group(Requests(turn.before) + [Ran(w)], Requests(turn.during) + [Done(w)], rest);
    Group(Requests(turn.before), [Ran(w)], (Requests(turn.during) + [Done(w)]) + rest);
    Group(Requests(turn.during), [Done(w)], rest);
    var p1 := pending + Set(turn.before);
    RequestsInOrder(pending, pending, turn.before, second);
    OneInOrder(pending, p1, Ran(w), Requests(turn.during) + third);
    RequestsInOrder(pending, p1 - {w}, turn.during, third);
    OneInOrder(pending, AfterTurn(pending, w, turn), Done(w), rest);
  }

  /** Watchers run by their ids, whatever is queued on the way: always the least one that is pending. */
  lemma {:induction false} FlushInOrder(pending: set<nat>, script: seq<Turn>, k: nat, circular: map<nat, nat>)
    ensures InOrder(pending, pending, PlainFlush(pending, script, k, circular).events)
    decreases if k < |script| then |script| - k else 0, |pending|
  {
    if pending != {} {
      var w, turn := Least(pending), TurnAt(script, k);
      var after := AfterTurn(pending, w, turn);
      var circular' := Charge(circular, w, after);
      if w in after && Count(circular', w) > MAX_UPDATE_COUNT {
        TurnInOrder(pending, w, turn, []);
        assert TurnEvents(w, turn) + [] == TurnEvents(w, turn);
      } else {
        TurnShrinks(pending, w, script, k);
        FlushInOrder(after, script, k + 1, circular');
        FlushUnfolds(pending, script, k, circular);
        TurnInOrder(pending, w, turn, PlainFlush(after, script, k + 1, circular').events);
      }
    }
  }

  /** How often a watcher was pending again at the end of its own run. */
  function Loops(before: set<nat>, trace: seq<Event>, id: nat): nat
    decreases |trace|
  {
    if trace == [] then 0
    else (if trace[0] == Done(id) && id in before then 1 else 0) + Loops(Affect(before, trace[0]), trace[1..], id)
  }

  lemma {:induction false} LoopsConcat(before: set<nat>, a: seq<Event>, b: seq<Event>, id: nat)
    ensures Loops(before, a + b, id) == Loops(before, a, id) + Loops(Pending(before, a), b, id)
    decreases |a|
  {
    if a == [] {
      assert a + b == b;
    } else {
      LoopsConcat(Affect(before, a[0]), a[1..], b, id);
      assert (a + b)[1..] == a[1..] + b;
    }
  }

  lemma {:induction false} LoopsInRequests(before: set<nat>, ids: seq<nat>, id: nat)
    ensures Loops(before, Requests(ids), id) == 0
    decreases |ids|
  {
    if ids != [] {
      LoopsInRequests(before + {ids[0]}, ids[1..], id);
      assert Requests(ids)[1..] == Requests(ids[1..]);
    }
  }

  lemma LoopsInTurn(pending: set<nat>, w: nat, turn: Turn, id: nat)
    requires w in pending
    ensures Loops(pending, TurnEvents(w, turn), id) == if id == w && w in AfterTurn(pending, w, turn) then 1 else 0
  {
    var p1 := pending + Set(turn.before);
    PendingRequests(pending, turn.before);
    Concat(pending, Requests(turn.before), [Ran(w)]);
    LoopsConcat(pending, Requests(turn.before), [Ran(w)], id);
    LoopsInRequests(pending, turn.before, id);
    assert Pending(p1, [Ran(w)]) == p1 - {w} && Loops(p1, [Ran(w)], id) == 0;
    PendingRequests(p1 - {w}, turn.during);
    LoopsConcat(p1 - {w}, Requests(turn.during), [Done(w)], id);
    LoopsInRequests(p1 - {w}, turn.during, id);
    LoopsConcat(pending, Requests(turn.before) + [Ran(w)], Requests(turn.during) + [Done(w)], id);
  }

  ghost predicate Overcharged(circular: map<nat, nat>, pending: set<nat>, events: seq<Event>, id: nat) {
    Count(circular, id) + Loops(pending, events, id) > 100
  }

  /** The charges and the loops to come add up to the same before and after a turn. */
  lemma ChargesMove(pending: set<nat>, w: nat, turn: Turn, circular: map<nat, nat>, rest: seq<Event>, id: nat)
    requires w in pending
    ensures var after := AfterTurn(pending, w, turn);
            Overcharged(circular, pending, TurnEvents(w, turn) + rest, id)
            <==> Overcharged(Charge(circular, w, after), after, rest, id)
  {
    TurnServes(pending, w, turn);
    LoopsConcat(pending, TurnEvents(w, turn), rest, id);
    LoopsInTurn(pending, w, turn, id);
  }

  lemma ChargeBound(circular: map<nat, nat>, w: nat, after: set<nat>)
    requires forall id: nat :: Count(circular, id) <= MAX_UPDATE_COUNT
    requires !(w in after && Count(Charge(circular, w, after), w) > MAX_UPDATE_COUNT)
    ensures forall id: nat :: Count(Charge(circular, w, after), id) <= MAX_UPDATE_COUNT
  {
    forall id: nat ensures Count(Charge(circular, w, after), id) <= MAX_UPDATE_COUNT {
      assert Count(circular, id) <= MAX_UPDATE_COUNT;
    }
  }

  lemma CutNow(pending: set<nat>, w: nat, turn: Turn, circular: map<nat, nat>)
    requires w in pending
    requires var after := AfterTurn(pending, w, turn);
             w in after && Count(Charge(circular, w, after), w) > MAX_UPDATE_COUNT
    ensures Overcharged(circular, pending, TurnEvents(w, turn), w)
  {
    LoopsInTurn(pending, w, turn, w);
  }

  /** The flush is cut off exactly when some watcher has queued itself again more than 100 times. */
  lemma {:induction false} CutIff(pending: set<nat>, script: seq<Turn>, k: nat, circular: map<nat, nat>)
    requires forall id: nat :: Count(circular, id) <= MAX_UPDATE_COUNT
    ensures var o := PlainFlush(pending, script, k, circular);
            o.cut <==> exists id :: Overcharged(circular, pending, o.events, id)
    decreases if k < |script| then |script| - k else 0, |pending|
  {
    if pending != {} {
      var w, turn := Least(pending), TurnAt(script, k);
      var after := AfterTurn(pending, w, turn);
      var circular' := Charge(circular, w, after);
      if w in after && Count(circular', w) > MAX_UPDATE_COUNT {
        CutNow(pending, w, turn, circular);
      } else {
        TurnShrinks(pending, w, script, k);
        ChargeBound(circular, w, after);
        CutIff(after, script, k + 1, circular');
        CutLater(pending, w, turn, circular, PlainFlush(after, script, k + 1, circular'));
      }
    }
  }

  lemma CutLater(pending: set<nat>, w: nat, turn: Turn, circular: map<nat, nat>, rest: Outcome)
    requires w in pending
    requires var after := AfterTurn(pending, w, turn);
             rest.cut <==> exists id :: Overcharged(Charge(circular, w, after), after, rest.events, id)
    ensures rest.cut <==> exists id :: Overcharged(circular, pending, TurnEvents(w, turn) + rest.events, id)
  {
    var after := AfterTurn(pending, w, turn);
    forall id: nat
      ensures Overcharged(circular, pending, TurnEvents(w, turn) + rest.events, id)
              <==> Overcharged(Charge(circular, w, after), after, rest.events, id)
    {
      ChargesMove(pending, w, turn, circular, rest.events, id);
    }
  }

  lemma {:induction false} RunsConcat(a: seq<Event>, b: seq<Event>, id: nat)
    ensures Runs(a + b, id) == Runs(a, id) + Runs(b, id)
  {
    if a == [] {
      assert a + b == b;
    } else {
      RunsConcat(a[1..], b, id);
      assert (a + b)[1..] == a[1..] + b;
    }
  }

  /** A watcher that queues itself again during its first `n` runs. */
  function Again(w: nat, n: nat): seq<Turn> {
    seq(n, _ => Turn([], [w]))
  }

  lemma OneTurn(w: nat, again: bool)
    ensures var turn := if again then Turn([], [w]) else QUIET;
            AfterTurn({w}, w, turn) == (if again then {w} else {}) && Runs(TurnEvents(w, turn), w) == 1
  {
    var turn := if again then Turn([], [w]) else QUIET;
    assert Requests([w]) == [Queued(w)] + Requests([w][1..]) == [Queued(w)];
    RunsConcat([], [Ran(w)], w);
    RunsConcat(Requests(turn.before) + [Ran(w)], Requests(turn.during) + [Done(w)], w);
    RunsConcat(Requests(turn.during), [Done(w)], w);
    assert [Ran(w)][1..] == [] && [Done(w)][1..] == [] && [Queued(w)][1..] == [];
    assert Requests([]) + [Ran(w)] == [Ran(w)];
  }

  lemma {:induction false} AgainFrom(w: nat, n: nat, k: nat, circular: map<nat, nat>)
    requires k <= n && k <= 100 && Count(circular, w) == k
    ensures var o := PlainFlush({w}, Again(w, n), k, circular);
            && o.cut == (n > 100)
            && Runs(o.events, w) == (if n > 100 then 101 else n + 1) - k
    decreases n - k
  {
    var (script, turn) := (Again(w, n), TurnAt(Again(w, n), k));
    OneTurn(w, k < n);
    assert Least({w}) == w;
    var after := AfterTurn({w}, w, turn);
    var circular' := Charge(circular, w, after);
    if k < n && k < 100 {
      AgainFrom(w, n, k + 1, circular');
      FlushUnfolds({w}, script, k, circular);
      RunsConcat(TurnEvents(w, turn), PlainFlush({w}, script, k + 1, circular').events, w);
    } else if k == n {
      FlushUnfolds({w}, script, k, circular);
      assert PlainFlush({}, script, k + 1, circular').events == [];
      assert TurnEvents(w, turn) + [] == TurnEvents(w, turn);
    }
  }

  /** 100 times a watcher may queue itself again; the 101st time the flush is cut off, after its 101st run. */
  lemma LoopLimit(w: nat)
    ensures var o := PlainFlush({w}, Again(w, 100), 0, map[]); !o.cut && Runs(o.events, w) == 101
    ensures var o := PlainFlush({w}, Again(w, 101), 0, map[]); o.cut && Runs(o.events, w) == 101
    ensures forall n: nat | n > 100 :: PlainFlush({w}, Again(w, n), 0, map[]).cut
  {
    forall n: nat ensures PlainFlush({w}, Again(w, n), 0, map[]).cut == (n > 100) { AgainFrom(w, n, 0, map[]); }
    AgainFrom(w, 100, 0, map[]);
    AgainFrom(w, 101, 0, map[]);
  }

  // ---- the queue ----

  ghost predicate IncreasingFrom(q: seq<nat>, lo: nat) {
    forall i, j :: lo <= i < j < |q| ==> q[i] < q[j]
  }

  function Splice(q: seq<nat>, p: nat, id: nat): seq<nat>
    requires p <= |q|
  {
    q[..p] + [id] + q[p..]
  }

  /** A splice at the right place of an increasing tail. */
  lemma SpliceIncreases(q: seq<nat>, lo: nat, p: nat, id: nat)
    requires lo <= p <= |q| && IncreasingFrom(q, lo)
    requires (p > lo ==> q[p - 1] < id) && (p < |q| ==> id < q[p])
    ensures IncreasingFrom(Splice(q, p, id), lo)
  {
    var r := Splice(q, p, id);
    forall i, j | lo <= i < j < |r|
      ensures r[i] < r[j]
    {
      assert i < p ==> r[i] == q[i] && q[i] <= q[p - 1];
      assert j > p ==> r[j] == q[j - 1] && q[p] <= q[j - 1];
      assert i > p ==> r[i] == q[i - 1];
      assert j < p ==> r[j] == q[j];
    }
  }

  /** The watchers in the queue from a place on. */
  function SetFrom(q: seq<nat>, lo: nat): set<nat>
    decreases |q| - lo
  {
    if lo >= |q| then {} else {q[lo]} + SetFrom(q, lo + 1)
  }

  lemma {:induction false} InSetFrom(q: seq<nat>, lo: nat, x: nat)
    ensures x in SetFrom(q, lo) <==> exists k :: lo <= k < |q| && q[k] == x
    decreases |q| - lo
  {
    if lo < |q| {
      InSetFrom(q, lo + 1, x);
    }
  }

  lemma {:induction false} SpliceAdds(q: seq<nat>, lo: nat, p: nat, id: nat)
    requires lo <= p <= |q|
    ensures SetFrom(Splice(q, p, id), lo) == SetFrom(q, lo) + {id}
    decreases |q| - lo
  {
    var r := Splice(q, p, id);
    if lo < p {
      SpliceAdds(q, lo + 1, p, id);
      assert r[lo] == q[lo];
    } else {
      SpliceShifts(q, p, id, p);
    }
  }

  lemma {:induction false} SpliceShifts(q: seq<nat>, p: nat, id: nat, lo: nat)
    requires p <= lo <= |q|
    ensures SetFrom(Splice(q, p, id), lo + 1) == SetFrom(q, lo)
    decreases |q| - lo
  {
    if lo < |q| {
      SpliceShifts(q, p, id, lo + 1);
    }
  }

  /** The library sort of the queue by id. */
  function InsertSorted(q: seq<nat>, x: nat): (r: seq<nat>)
    requires IncreasingFrom(q, 0) && x !in q
    ensures IncreasingFrom(r, 0) && |r| == |q| + 1
    ensures forall y :: y in r <==> y in q || y == x
  {
    if q == [] || x < q[0] then [x] + q
    else
      assert forall y <- q[1..] :: q[0] < y;
      var t := InsertSorted(q[1..], x);
      assert q[0] in q && q[0] < x;
      assert forall y <- t :: q[0] < y by {
        forall y | y in t
          ensures q[0] < y
        {
          assert y == x || y in q[1..];
        }
      }
      assert forall i :: 0 <= i < |t| ==> t[i] in t;
      [q[0]] + t
  }

  function SortById(q: seq<nat>): (r: seq<nat>)
    requires forall i, j :: 0 <= i < j < |q| ==> q[i] != q[j]
    ensures IncreasingFrom(r, 0) && |r| == |q|
    ensures forall y :: y in r <==> y in q
  {
    if q == [] then [] else InsertSorted(SortById(q[1..]), q[0])
  }

  lemma SameMembers(q: seq<nat>, r: seq<nat>)
    requires forall y :: y in r <==> y in q
    ensures SetFrom(r, 0) == SetFrom(q, 0)
  {
    forall y
      ensures y in SetFrom(r, 0) <==> y in SetFrom(q, 0)
    {
      InSetFrom(r, 0, y);
      InSetFrom(q, 0, y);
      assert y in r <==> y in q;
    }
  }

  /** The first of an increasing tail is the least of its members, and no other member equals it. */
  lemma LeastIsFirst(q: seq<nat>, index: nat)
    requires index < |q| && IncreasingFrom(q, index)
    ensures SetFrom(q, index) != {} && Least(SetFrom(q, index)) == q[index]
    ensures q[index] !in SetFrom(q, index + 1)
  {
    forall x | x in SetFrom(q, index)
      ensures q[index] <= x
    {
      InSetFrom(q, index, x);
    }
    InSetFrom(q, index + 1, q[index]);
  }

  // ---- the code ----

  class Scheduler {
    var queue: seq<nat>
    var has: set<nat>
    var circular: map<nat, nat>
    var waiting: bool
    var flushing: bool
    var index: nat
    ghost var events: seq<Event>

    constructor ()
      ensures Idle() && queue == [] && events == []
    {
      queue, has, circular := [], {}, map[];
      waiting, flushing, index := false, false, 0;
      events := [];
    }

    /** Between flushes the queue holds once each the watchers that all the events so far leave pending. */
    ghost predicate Idle()
      reads this
    {
      && !flushing && index == 0 && circular == map[] && (waiting <==> queue != [])
      && has == SetFrom(queue, 0) && (forall i, j :: 0 <= i < j < |queue| ==> queue[i] != queue[j])
      && Booked(events, has)
    }

    /**
     During a flush the tail of the queue is increasing and `has` marks it; while the `before` hook of
     the current watcher runs, that watcher is marked too.
     */
    ghost predicate InFlush(current: set<nat>)
      reads this
    {
      && flushing && waiting && index < |queue| && IncreasingFrom(queue, index + 1)
      && has == current + SetFrom(queue, index + 1) && current !! SetFrom(queue, index + 1)
      && Booked(events, has)
    }

    /** Scans back for the place of a watcher that is queued during a flush. */
    method FindPlace(id: nat) returns (p: nat)
      requires index < |queue| && IncreasingFrom(queue, index + 1) && id !in SetFrom(queue, index + 1)
      ensures index + 1 <= p <= |queue|
      ensures (p > index + 1 ==> queue[p - 1] < id) && (p < |queue| ==> id < queue[p])
    {
      var i := |queue| - 1;
      while i > index && queue[i] > id
        invariant index <= i < |queue|
        invariant i + 1 < |queue| ==> queue[i + 1] > id
      {
        i := i - 1;
      }
      p := i + 1;
      InSetFrom(queue, index + 1, id);
    }

    method SpliceIn(id: nat, ghost current: set<nat>)
      requires InFlush(current) && id !in has
      modifies `queue
      ensures flushing && waiting && index < |queue| && IncreasingFrom(queue, index + 1)
      ensures SetFrom(queue, index + 1) == SetFrom(old(queue), index + 1) + {id}
      ensures |queue| == |old(queue)| + 1 && queue[index] == old(queue)[index]
    {
      var p := FindPlace(id);
      SpliceIncreases(queue, index + 1, p, id);
      SpliceAdds(queue, index + 1, p, id);
      queue := Splice(queue, p, id);
    }

    /** Between flushes a watcher goes to the end; during a flush it is spliced in by its id. */
    method QueueWatcher(id: nat, ghost current: set<nat>)
      requires Idle() || InFlush(current)
      modifies this
      ensures old(Idle()) ==> Idle()
      ensures old(InFlush(current)) ==>
                InFlush(current) && index < |old(queue)| <= |queue| && queue[index] == old(queue)[index]
      ensures has == old(has) + {id} && events == old(events) + [Queued(id)]
      ensures index == old(index) && circular == old(circular)
      ensures id in old(has) ==> queue == old(queue)
    {
      if id !in has {
        if !flushing {
          SpliceAdds(queue, 0, |queue|, id);
          assert Splice(queue, |queue|, id) == queue + [id];
          InSetFrom(queue, 0, id);
          queue := queue + [id];
        } else {
          SpliceIn(id, current);
        }
        has := has + {id};
        if !waiting {
          waiting := true;
        }
      }
      BookOne(events, old(has), Queued(id));
      events := events + [Queued(id)];
    }

    /** Code that runs inside a flush queues some watchers. */
    method QueueAll(ids: seq<nat>, ghost current: set<nat>)
      requires InFlush(current)
      modifies this
      ensures InFlush(current)
      ensures has == old(has) + Set(ids) && events == old(events) + Requests(ids)
      ensures index == old(index) && circular == old(circular)
      ensures |queue| >= |old(queue)| && queue[index] == old(queue)[index]
      ensures ids == [] ==> queue == old(queue)
    {
      for k := 0 to |ids|
        invariant InFlush(current)
        invariant has == old(has) + Set(ids[..k]) && events == old(events) + Requests(ids[..k])
        invariant index == old(index) && circular == old(circular)
        invariant |queue| >= |old(queue)| && queue[index] == old(queue)[index]
        invariant k == 0 ==> queue == old(queue)
      {
        RequestsSnoc(ids, k);
        QueueWatcher(ids[k], current);
      }
      assert ids[..|ids|] == ids;
    }

    /** The guard against endless updates. */
    method CheckCircular(id: nat) returns (cut: bool)
      modifies `circular
      ensures circular == Charge(old(circular), id, has)
      ensures cut <==> id in has && Count(circular, id) > MAX_UPDATE_COUNT
    {
      cut := false;
      if id in has {
        circular := circular[id := Count(circular, id) + 1];
        if Count(circular, id) > MAX_UPDATE_COUNT {
          cut := true;
        }
      }
    }

    /** The turn of the watcher at `index`; tells whether it has to be cut off. */
    method RunWatcher(turn: Turn) returns (cut: bool)
      requires flushing && waiting && index < |queue| && IncreasingFrom(queue, index) && has == SetFrom(queue, index)
      requires Booked(events, has)
      modifies this
      ensures InFlush({}) && index == old(index) && |queue| >= |old(queue)|
      ensures turn == QUIET ==> queue == old(queue)
      ensures var w := old(queue)[index];
              && has == AfterTurn(old(has), w, turn) && events == old(events) + TurnEvents(w, turn)
              && circular == Charge(old(circular), w, has)
              && (cut <==> w in has && Count(circular, w) > MAX_UPDATE_COUNT)
    {
      ghost var e := events;
      LeastIsFirst(queue, index);
      var id := queue[index];
      QueueAll(turn.before, {id});
      BookOne(events, has, Ran(id));
      has := has - {id};
      events := events + [Ran(id)];
      QueueAll(turn.during, {});
      cut := CheckCircular(id);
      BookOne(events, has, Done(id));
      events := events + [Done(id)];
      TurnEventsGrouped(e, id, turn);
    }

    /** The state at the top of the loop, on course to what the plain flush does. */
    ghost predicate Draining(wanted: seq<Event>, goalCut: bool, script: seq<Turn>)
      reads this
    {
      && flushing && waiting && index <= |queue|
      && IncreasingFrom(queue, index) && has == SetFrom(queue, index)
      && Booked(events, has) && OnCourse(wanted, goalCut, events, has, script, index, circular)
    }

    method NextWatcher(script: seq<Turn>, ghost wanted: seq<Event>, ghost goalCut: bool) returns (cut: bool)
      requires Draining(wanted, goalCut, script) && index < |queue|
      modifies this
      ensures cut ==> goalCut && events == wanted && Booked(events, has)
      ensures !cut ==> Draining(wanted, goalCut, script) && index == old(index) + 1
      ensures old(index) >= |script| ==> queue == old(queue)
    {
      LeastIsFirst(queue, index);
      NextTurn(wanted, goalCut, events, has, script, index, circular, queue[index]);
      cut := RunWatcher(if index < |script| then script[index] else QUIET);
      if !cut {
        index := index + 1;
      }
    }

    /** The loop that runs the watchers of the queue. */
    method Drain(script: seq<Turn>, ghost wanted: seq<Event>, ghost goalCut: bool) returns (cut: bool)
      requires Draining(wanted, goalCut, script)
      modifies this
      ensures cut == goalCut && events == wanted + (if cut then [Dropped] else []) && Booked(events, {})
    {
      cut := false;
      while index < |queue|
        invariant Draining(wanted, goalCut, script) && !cut
        decreases if index < |script| then |script| - index else 0, |queue| - index
      {
        cut := NextWatcher(script, wanted, goalCut);
        if cut {
          BookOne(events, has, Dropped);
          events := events + [Dropped];
          return;
        }
      }
      FinishedCourse(wanted, goalCut, events, script, index, circular);
    }

    /** Drains the queue: it is the plain flush of what is pending; what is pending when it is cut off is dropped. */
    method FlushSchedulerQueue(script: seq<Turn>) returns (cut: bool)
      requires Idle()
      modifies this
      ensures Idle() && queue == []
      ensures var o := PlainFlush(old(has), script, 0, map[]);
              events == old(events) + o.events + (if o.cut then [Dropped] else []) && cut == o.cut
    {
      ghost var goal := PlainFlush(has, script, 0, map[]);
      Begin();
      cut := Drain(script, events + goal.events, goal.cut);
      ResetSchedulerState();
    }

    /** The queue is sorted, and the flush begins. */
    method Begin()
      requires Idle()
      modifies `queue, `flushing, `waiting
      ensures flushing && waiting && IncreasingFrom(queue, 0) && has == SetFrom(queue, 0)
    {
      flushing, waiting := true, true;
      SameMembers(queue, SortById(queue));
      queue := SortById(queue);
    }

    method ResetSchedulerState()
      requires Booked(events, {})
      modifies this
      ensures Idle() && queue == [] && events == old(events)
    {
      index, queue, has, circular := 0, [], {}, map[];
      waiting, flushing := false, false;
    }

    /**
     Over a whole run: every request is followed by a run of its watcher or by a flush that was cut off, or is still
     in the queue; and every watcher has run as often as it was taken into the queue, dropped and waiting ones aside.
     */
    lemma WholeRun(k: nat, id: nat)
      requires Idle() && k < |events| && events[k].Queued?
      ensures Served(events, k) || CutAfter(events, k) || events[k].id in queue
      ensures Accepted({}, events, id) == Runs(events, id) + Drops({}, events, id) + (if id in queue then 1 else 0)
    {
      InSetFrom(queue, 0, events[k].id);
      InSetFrom(queue, 0, id);
      if events[k].id !in has {
        NotPendingServed({}, events, k);
      }
      OncePerQueueing({}, events, id);
    }
  }

  lemma RequestsSnoc(ids: seq<nat>, k: nat)
    requires k < |ids|
    ensures Set(ids[..k + 1]) == Set(ids[..k]) + {ids[k]}
    ensures Requests(ids[..k + 1]) == Requests(ids[..k]) + [Queued(ids[k])]
  {
    assert ids[..k + 1] == ids[..k] + [ids[k]];
    RequestsAppend(ids[..k], ids[k]);
  }

  lemma {:induction false} RequestsAppend(ids: seq<nat>, x: nat)
    ensures Requests(ids + [x]) == Requests(ids) + [Queued(x)]
    decreases |ids|
  {
    if ids == [] {
      assert [] + [x] == [x] && [x][1..] == [];
    } else {
      RequestsAppend(ids[1..], x);
      assert (ids + [x])[1..] == ids[1..] + [x];
    }
  }

  lemma TurnEventsGrouped(e: seq<Event>, w: nat, turn: Turn)
    ensures e + Requests(turn.before) + [Ran(w)] + Requests(turn.during) + [Done(w)] == e + TurnEvents(w, turn)
  {}

  /** What has happened so far is on course to `wanted`. */
  ghost predicate OnCourse(wanted: seq<Event>, cut: bool, sofar: seq<Event>, pending: set<nat>, script: seq<Turn>,
                           k: nat, circular: map<nat, nat>)
  {
    var o := PlainFlush(pending, script, k, circular);
    wanted == sofar + o.events && cut == o.cut
  }

  /** One turn of the plain flush. */
  lemma NextTurn(wanted: seq<Event>, cut: bool, e: seq<Event>, pending: set<nat>, script: seq<Turn>, k: nat,
                 circular: map<nat, nat>, w: nat)
    requires pending != {} && w == Least(pending) && OnCourse(wanted, cut, e, pending, script, k, circular)
    ensures var turn := TurnAt(script, k);
            var after := AfterTurn(pending, w, turn);
            var circular' := Charge(circular, w, after);
            if w in after && Count(circular', w) > MAX_UPDATE_COUNT then cut && wanted == e + TurnEvents(w, turn)
            else OnCourse(wanted, cut, e + TurnEvents(w, turn), after, script, k + 1, circular')
  {
    var turn := TurnAt(script, k);
    var after := AfterTurn(pending, w, turn);
    if !(w in after && Count(Charge(circular, w, after), w) > MAX_UPDATE_COUNT) {
      Group(e, TurnEvents(w, turn), PlainFlush(after, script, k + 1, Charge(circular, w, after)).events);
    }
  }

  lemma FinishedCourse(wanted: seq<Event>, cut: bool, sofar: seq<Event>, script: seq<Turn>, k: nat,
                       circular: map<nat, nat>)
    requires OnCourse(wanted, cut, sofar, {}, script, k, circular)
    ensures !cut && wanted == sofar
  {
    assert sofar + [] == sofar;
  }

  lemma Group(a: seq<Event>, b: seq<Event>, c: seq<Event>)
    ensures a + (b + c) == a + b + c
  {}

  lemma {:induction false} NoDropInRequests(ids: seq<nat>)
    ensures forall e <- Requests(ids) :: e.Queued?
  {
    if ids != [] {
      NoDropInRequests(ids[1..]);
    }
  }

  predicate NoDrops(trace: seq<Event>) {
    forall e <- trace :: !e.Dropped?
  }

  lemma NoDropsAppend(a: seq<Event>, b: seq<Event>)
    requires NoDrops(a) && NoDrops(b)
    ensures NoDrops(a + b)
  {
  }

  lemma NoDropInTurn(w: nat, turn: Turn)
    ensures NoDrops(TurnEvents(w, turn))
  {
    NoDropInRequests(turn.before);
    NoDropInRequests(turn.during);
    NoDropsAppend(Requests(turn.before), [Ran(w)]);
    NoDropsAppend(Requests(turn.during), [Done(w)]);
    NoDropsAppend(Requests(turn.before) + [Ran(w)], Requests(turn.during) + [Done(w)]);
  }

  lemma {:induction false} NoDropInFlush(pending: set<nat>, script: seq<Turn>, k: nat, circular: map<nat, nat>)
    ensures NoDrops(PlainFlush(pending, script, k, circular).events)
    decreases if k < |script| then |script| - k else 0, |pending|
  {
    if pending != {} {
      var w, turn := Least(pending), TurnAt(script, k);
      var after := AfterTurn(pending, w, turn);
      NoDropInTurn(w, turn);
      if !(w in after && Count(Charge(circular, w, after), w) > MAX_UPDATE_COUNT) {
        TurnShrinks(pending, w, script, k);
        NoDropInFlush(after, script, k + 1, Charge(circular, w, after));
        NoDropsAppend(TurnEvents(w, turn), PlainFlush(after, script, k + 1, Charge(circular, w, after)).events);
      }
    }
  }

  /**
   A whole flush serves what was queued: unless it is cut off, every request made during it, or before it and not
   dropped by an earlier flush, is followed by a run of that watcher, and every watcher runs as often as it is taken
   into the queue and not dropped.
   */
  lemma FlushServes(before: seq<Event>, script: seq<Turn>, k: nat, id: nat)
    requires Justified({}, before)
    requires var o := PlainFlush(Pending({}, before), script, 0, map[]);
             !o.cut && k < |before + o.events| && (before + o.events)[k].Queued?
    ensures var trace := before + PlainFlush(Pending({}, before), script, 0, map[]).events;
            && (Served(trace, k) || CutAfter(before, k)) && Justified({}, trace)
            && Accepted({}, trace, id) == Runs(trace, id) + Drops({}, trace, id)
  {
    var o := PlainFlush(Pending({}, before), script, 0, map[]);
    PlainFlushServes(Pending({}, before), script, 0, map[]);
    Concat({}, before, o.events);
    NotPendingServed({}, before + o.events, k);
    OncePerQueueing({}, before + o.events, id);
    NoDropInFlush(Pending({}, before), script, 0, map[]);
    if j :| k < j < |before + o.events| && (before + o.events)[j] == Dropped {
      assert j >= |before| ==> o.events[j - |before|] in o.events;
    }
  }

  // ---- the books of a whole run ----

  /** The events so far account for what is pending. */
  predicate Booked(events: seq<Event>, pending: set<nat>) {
    Justified({}, events) && pending == Pending({}, events)
  }

  lemma BookOne(events: seq<Event>, pending: set<nat>, e: Event)
    requires Booked(events, pending) && (e.Ran? ==> e.id in pending)
    ensures Booked(events + [e], Affect(pending, e))
  {
    Concat({}, events, [e]);
    assert [e][1..] == [];
  }
}
