/** The restart protocol of the panel: mutators commit and set a flag, restarters claim it and rebuild under a lock. */
module Restart {
  import opened Options

  /** The database after so many commits; and the configuration of the server process. */
  type Version = nat
  type Config = string

  /** Where a restarter is: outside, on its way in, or holding the lock with what it has read. */
  datatype Phase =
    | Idle
    | Waiting(force: bool)
    | Locked(force: bool)
    | Built(force: bool, version: Version)
    | Passed(force: bool, version: Version)
    | Stopped(version: Version, oldConfig: Option<Config>)
    | StartFailed(version: Version, oldConfig: Option<Config>)

  /**
   The shared state. `unflagged` are the commits whose mutator has yet to set the flag. `applied` is the version of
   the configuration that a restart last put in place. `refused` is the latest version that a restart has read, only
   to leave the process with an older configuration, and `downed` the latest that one has read to leave it down.
   */
  datatype State = State(db: Version, unflagged: set<Version>, flag: bool, lock: Option<nat>, threads: seq<Phase>,
                         running: Option<Config>, applied: Version, refused: Version, downed: Version)

  datatype Event =
    | Commit
    | SetFlag(version: Version)
    | Nudge
    | Crash
    | StopXray
    | Claim(thread: nat)
    | Force(thread: nat)
    | Acquire(thread: nat)
    | Read(thread: nat)
    | BuildFails(thread: nat)
    | TestPasses(thread: nat)
    | TestFails(thread: nat)
    | Decide(thread: nat)
    | Start(thread: nat, ok: bool)
    | Rollback(thread: nat, ok: bool)

  predicate Enabled(s: State, e: Event) {
    match e
    case Commit => true
    case SetFlag(v) => v in s.unflagged
    case Nudge => true
    case Crash => true
    case StopXray => s.lock.None?
    case Claim(t) => t < |s.threads| && s.threads[t].Idle? && s.flag
    case Force(t) => t < |s.threads| && s.threads[t].Idle?
    case Acquire(t) => t < |s.threads| && s.threads[t].Waiting? && s.lock.None?
    case Read(t) => t < |s.threads| && s.threads[t].Locked?
    case BuildFails(t) => t < |s.threads| && s.threads[t].Locked?
    case TestPasses(t) => t < |s.threads| && s.threads[t].Built?
    case TestFails(t) => t < |s.threads| && s.threads[t].Built?
    case Decide(t) => t < |s.threads| && s.threads[t].Passed?
    case Start(t, _) => t < |s.threads| && s.threads[t].Stopped?
    case Rollback(t, _) => t < |s.threads| && s.threads[t].StartFailed? && s.threads[t].oldConfig.Some?
  }

  function Max(a: nat, b: nat): nat {
    if a < b then b else a
  }

  function At(s: State, t: nat, phase: Phase): State
    requires t < |s.threads|
  {
    s.(threads := s.threads[t := phase])
  }

  /** The restarter returns, and the deferred unlock runs. */
  function Return(s: State, t: nat): State
    requires t < |s.threads|
  {
    At(s, t, Idle).(lock := None)
  }

  /** A restarter that has read `version` gives up, whether or not a process is running. */
  function GiveUp(s: State, t: nat, version: Version): State
    requires t < |s.threads|
  {
    if s.running.Some? then Return(s.(refused := Max(s.refused, version)), t)
    else Return(s.(downed := Max(s.downed, version)), t)
  }

  function Next(build: Version -> Config, s: State, e: Event): State
    requires Enabled(s, e)
  {
    match e
    case Commit => s.(db := s.db + 1, unflagged := s.unflagged + {s.db + 1})
    case SetFlag(v) => s.(flag := true, unflagged := s.unflagged - {v})
    case Nudge => s.(flag := true)
    case Crash => s.(running := None)
    case StopXray => s.(running := None)
    case Claim(t) => At(s, t, Waiting(false)).(flag := false)
    case Force(t) => At(s, t, Waiting(true))
    case Acquire(t) => At(s, t, Locked(s.threads[t].force)).(lock := Some(t))
    case Read(t) => At(s, t, Built(s.threads[t].force, s.db))
    case BuildFails(t) => GiveUp(s, t, s.db)
    case TestPasses(t) => At(s, t, Passed(s.threads[t].force, s.threads[t].version))
    case TestFails(t) => GiveUp(s, t, s.threads[t].version)
    case Decide(t) =>
      var v := s.threads[t].version;
      if s.running == Some(build(v)) && !s.threads[t].force then Return(s.(applied := v), t)
      else At(s, t, Stopped(v, s.running)).(running := None)
    case Start(t, ok) =>
      var v := s.threads[t].version;
      if ok then Return(s.(running := Some(build(v)), applied := v), t)
      else if s.threads[t].oldConfig.None? then GiveUp(s, t, v)
      else At(s, t, StartFailed(v, s.threads[t].oldConfig))
    case Rollback(t, ok) =>
      if ok then GiveUp(s.(running := s.threads[t].oldConfig), t, s.threads[t].version)
      else GiveUp(s, t, s.threads[t].version)
  }

  predicate Possible(build: Version -> Config, s: State, events: seq<Event>)
    decreases |events|
  {
    events == [] || (Enabled(s, events[0]) && Possible(build, Next(build, s, events[0]), events[1..]))
  }

  function After(build: Version -> Config, s: State, events: seq<Event>): State
    requires Possible(build, s, events)
    decreases |events|
  {
    if events == [] then s else After(build, Next(build, s, events[0]), events[1..])
  }

  /** The panel starts with no process, and nothing committed since. */
  function Begin(threads: nat): State {
    State(0, {}, false, None, seq(threads, _ => Idle), None, 0, 0, 0)
  }

  // ---- no committed change is lost without a trace ----

  predicate Holds(p: Phase) {
    !p.Idle? && !p.Waiting?
  }

  /** A restarter that has not read the database yet. */
  predicate Unread(p: Phase) {
    p.Waiting? || p.Locked?
  }

  predicate HasRead(p: Phase) {
    Holds(p) && !p.Locked?
  }

  predicate ThreadOk(build: Version -> Config, s: State, t: nat)
    requires t < |s.threads|
  {
    var p := s.threads[t];
    && (Holds(p) <==> s.lock == Some(t))
    && (HasRead(p) ==> s.applied <= p.version <= s.db && s.downed <= p.version)
    && (p.Stopped? || p.StartFailed? ==>
          s.running.None? && (p.oldConfig.Some? ==> p.oldConfig.value == build(s.applied)))
    && (p.StartFailed? ==> p.oldConfig.Some?)
  }

  /** The process is down, and no restarter is about to put an old configuration back. */
  predicate Down(s: State) {
    s.running.None? && forall t :: 0 <= t < |s.threads| ==> !GoesBack(s.threads[t])
  }

  predicate GoesBack(p: Phase) {
    (p.Stopped? || p.StartFailed?) && p.oldConfig.Some?
  }

  /**
   A change is in the configuration that was last put in place, or the flag is set, or a restarter has yet to read
   the database, or one has read it and is at work, or a restart that had read it was refused, or one that had read
   it has left the process down, as it still is.
   */
  predicate Covered(s: State, v: Version) {
    || v <= s.applied
    || s.flag
    || (exists t :: 0 <= t < |s.threads| && Unread(s.threads[t]))
    || (exists t :: 0 <= t < |s.threads| && HasRead(s.threads[t]) && v <= s.threads[t].version)
    || v <= s.refused
    || (Down(s) && v <= s.downed)
  }

  predicate Flagged(s: State, v: Version) {
    v <= s.db && v !in s.unflagged
  }

  predicate Threads(build: Version -> Config, s: State) {
    && (forall t :: 0 <= t < |s.threads| ==> ThreadOk(build, s, t))
    && (s.lock.Some? ==> s.lock.value < |s.threads|)
  }

  predicate Process(build: Version -> Config, s: State) {
    && (s.running.Some? ==> s.running.value == build(s.applied))
    && s.applied <= s.db && s.refused <= s.db && s.downed <= s.db
    && forall v <- s.unflagged :: v <= s.db
  }

  ghost predicate NothingLost(s: State) {
    forall v: Version | Flagged(s, v) :: Covered(s, v)
  }

  ghost predicate Invariant(build: Version -> Config, s: State) {
    Threads(build, s) && Process(build, s) && NothingLost(s)
  }

  lemma ThreadKept(build: Version -> Config, s: State, e: Event, q: nat)
    requires Threads(build, s) && Process(build, s) && Enabled(s, e) && q < |s.threads|
    ensures ThreadOk(build, Next(build, s, e), q)
  {
    assert ThreadOk(build, s, q);
    if !(e.Commit? || e.SetFlag? || e.Nudge? || e.Crash? || e.StopXray?) {
      assert ThreadOk(build, s, e.thread);
    }
  }

  lemma ThreadsKept(build: Version -> Config, s: State, e: Event)
    requires Threads(build, s) && Process(build, s) && Enabled(s, e)
    ensures Threads(build, Next(build, s, e))
  {
    var s' := Next(build, s, e);
    assert |s'.threads| == |s.threads|;
    forall q | 0 <= q < |s'.threads| ensures ThreadOk(build, s', q) { ThreadKept(build, s, e, q); }
  }

  lemma ProcessKept(build: Version -> Config, s: State, e: Event)
    requires Threads(build, s) && Process(build, s) && Enabled(s, e)
    ensures Process(build, Next(build, s, e))
  {
    match e
    case Read(t) =>
    case BuildFails(t) => assert ThreadOk(build, s, t);
    case TestFails(t) => assert ThreadOk(build, s, t);
    case Decide(t) => assert ThreadOk(build, s, t);
    case Start(t, ok) => assert ThreadOk(build, s, t);
    case Rollback(t, ok) => assert ThreadOk(build, s, t);
    case _ =>
  }

  lemma FreeLock(build: Version -> Config, s: State)
    requires Threads(build, s) && s.lock.None? && s.running.None?
    ensures Down(s)
  {
    forall t | 0 <= t < |s.threads| ensures !GoesBack(s.threads[t]) { assert ThreadOk(build, s, t); }
  }

  /** A process that is down stays so, until a restart puts in place what was read after the last failure. */
  lemma DownKept(build: Version -> Config, s: State, e: Event, v: Version)
    requires Threads(build, s) && Process(build, s) && Enabled(s, e) && Down(s) && v <= s.downed
    ensures Covered(Next(build, s, e), v)
  {
    var s' := Next(build, s, e);
    ThreadsKept(build, s, e);
    if s'.running.None? && s'.lock.None? {
      FreeLock(build, s');
    } else if e.Start? || e.Decide? {
      assert ThreadOk(build, s, e.thread);
    }
  }

  /** A step of the thread itself, or one that leaves it alone. */
  lemma UnreadKept(build: Version -> Config, s: State, e: Event, v: Version, w: nat)
    requires Threads(build, s) && Process(build, s) && Enabled(s, e) && v <= s.db
    requires w < |s.threads| && Unread(s.threads[w])
    ensures Covered(Next(build, s, e), v)
  {
    var s' := Next(build, s, e);
    assert ThreadOk(build, s, w);
    ThreadsKept(build, s, e);
    if s'.running.None? && s'.lock.None? {
      FreeLock(build, s');
    }
    assert Unread(s'.threads[w]) || (HasRead(s'.threads[w]) && v <= s'.threads[w].version)
           || v <= s'.applied || v <= s'.refused
           || (s'.running.None? && s'.lock.None? && v <= s'.downed);
  }

  lemma ReadKept(build: Version -> Config, s: State, e: Event, v: Version, w: nat)
    requires Threads(build, s) && Process(build, s) && Enabled(s, e)
    requires w < |s.threads| && HasRead(s.threads[w]) && v <= s.threads[w].version
    ensures Covered(Next(build, s, e), v)
  {
    var s' := Next(build, s, e);
    assert ThreadOk(build, s, w);
    ThreadsKept(build, s, e);
    if s'.running.None? && s'.lock.None? {
      FreeLock(build, s');
    }
    assert (HasRead(s'.threads[w]) && v <= s'.threads[w].version) || v <= s'.applied || v <= s'.refused
           || (s'.running.None? && s'.lock.None? && v <= s'.downed);
  }

  /** `applied` does not fall. */
  lemma AppliedKept(build: Version -> Config, s: State, e: Event)
    requires Threads(build, s) && Process(build, s) && Enabled(s, e)
    ensures s.applied <= Next(build, s, e).applied && s.refused <= Next(build, s, e).refused
  {
    if !(e.Commit? || e.SetFlag? || e.Nudge? || e.Crash? || e.StopXray?) {
      assert ThreadOk(build, s, e.thread);
    }
  }

  lemma CoveredKept(build: Version -> Config, s: State, e: Event, v: Version)
    requires Threads(build, s) && Process(build, s) && Enabled(s, e)
    requires Flagged(Next(build, s, e), v)
    requires Flagged(s, v) ==> Covered(s, v)
    ensures Covered(Next(build, s, e), v)
  {
    AppliedKept(build, s, e);
    if e.SetFlag? {
    } else if e.Claim? {
      assert Unread(Next(build, s, e).threads[e.thread]);
    } else if v <= s.applied || s.flag || v <= s.refused {
    } else if w :| 0 <= w < |s.threads| && Unread(s.threads[w]) {
      UnreadKept(build, s, e, v, w);
    } else if Down(s) && v <= s.downed {
      DownKept(build, s, e, v);
    } else {
      var w :| 0 <= w < |s.threads| && HasRead(s.threads[w]) && v <= s.threads[w].version;
      ReadKept(build, s, e, v, w);
    }
  }

  lemma StepKeeps(build: Version -> Config, s: State, e: Event)
    requires Invariant(build, s) && Enabled(s, e)
    ensures Invariant(build, Next(build, s, e))
  {
    ThreadsKept(build, s, e);
    ProcessKept(build, s, e);
    forall v: Version | Flagged(Next(build, s, e), v) ensures Covered(Next(build, s, e), v) {
      CoveredKept(build, s, e, v);
    }
  }

  /** In every interleaving, and whatever fails, no committed change whose flag was set is lost without a trace. */
  lemma {:induction false} NoLostRestart(build: Version -> Config, s: State, events: seq<Event>)
    requires Invariant(build, s) && Possible(build, s, events)
    ensures Invariant(build, After(build, s, events))
    decreases |events|
  {
    if events != [] {
      StepKeeps(build, s, events[0]);
      NoLostRestart(build, Next(build, s, events[0]), events[1..]);
    }
  }

  lemma BeginOk(build: Version -> Config, threads: nat)
    ensures Invariant(build, Begin(threads))
  {
  }

  /** Nobody is at work, and every mutator has set the flag. */
  predicate Quiescent(s: State) {
    s.unflagged == {} && !s.flag && forall t :: 0 <= t < |s.threads| ==> s.threads[t].Idle?
  }

  /**
   When everyone is done and the process is up, it runs the latest database exactly if the last restart that was
   refused has been made up for.
   */
  lemma UpToDate(build: Version -> Config, threads: nat, events: seq<Event>)
    requires Possible(build, Begin(threads), events)
    ensures var s := After(build, Begin(threads), events);
            Quiescent(s) && s.running.Some? ==>
              && s.running.value == build(s.applied)
              && (s.applied == s.db <==> s.refused <= s.applied)
  {
    BeginOk(build, threads);
    NoLostRestart(build, Begin(threads), events);
    var s := After(build, Begin(threads), events);
    assert Quiescent(s) ==> Flagged(s, s.db) && Covered(s, s.db);
  }

  /** An event that makes a restart leave an older configuration running. */
  predicate Refusal(s: State, e: Event) {
    || ((e.BuildFails? || e.TestFails?) && s.running.Some?)
    || (e.Rollback? && e.ok)
  }

  predicate NoRefusal(build: Version -> Config, s: State, events: seq<Event>)
    requires Possible(build, s, events)
    decreases |events|
  {
    events == [] || (!Refusal(s, events[0]) && NoRefusal(build, Next(build, s, events[0]), events[1..]))
  }

  /** `refused` is what refusals make it: it rises only with them. */
  lemma {:induction false} RefusedOnly(build: Version -> Config, s: State, events: seq<Event>)
    requires Invariant(build, s) && Possible(build, s, events) && NoRefusal(build, s, events)
    ensures After(build, s, events).refused == s.refused
    decreases |events|
  {
    if events != [] {
      StepKeeps(build, s, events[0]);
      var e := events[0];
      if e.Start? || e.Rollback? {
        assert ThreadOk(build, s, e.thread);
      }
      RefusedOnly(build, Next(build, s, e), events[1..]);
    }
  }

  /** As long as no restart is refused, a process that is up when everyone is done runs the latest database. */
  lemma SuccessfulRestarts(build: Version -> Config, threads: nat, events: seq<Event>)
    requires Possible(build, Begin(threads), events) && NoRefusal(build, Begin(threads), events)
    ensures var s := After(build, Begin(threads), events);
            Quiescent(s) && s.running.Some? ==> s.applied == s.db && s.running.value == build(s.db)
  {
    BeginOk(build, threads);
    RefusedOnly(build, Begin(threads), events);
    UpToDate(build, threads, events);
  }

  // ---- a refused restart loses the change ----

  function Steps(build: Version -> Config, s: State, events: seq<Event>): Option<State>
    decreases |events|
  {
    if events == [] then Some(s)
    else if Enabled(s, events[0]) then Steps(build, Next(build, s, events[0]), events[1..])
    else None
  }

  lemma {:induction false} StepsAfter(build: Version -> Config, s: State, events: seq<Event>)
    ensures Steps(build, s, events).Some? <==> Possible(build, s, events)
    ensures Possible(build, s, events) ==> Steps(build, s, events).value == After(build, s, events)
    decreases |events|
  {
    if events != [] && Enabled(s, events[0]) {
      StepsAfter(build, Next(build, s, events[0]), events[1..]);
    }
  }

  lemma {:induction false} StepsAppend(build: Version -> Config, s: State, a: seq<Event>, b: seq<Event>)
    requires Steps(build, s, a).Some?
    ensures Steps(build, s, a + b) == Steps(build, Steps(build, s, a).value, b)
    decreases |a|
  {
    if a == [] {
      assert a + b == b;
    } else {
      StepsAppend(build, Next(build, s, a[0]), a[1..], b);
      assert (a + b)[1..] == a[1..] + b;
    }
  }

  lemma One(build: Version -> Config, s: State, a: Event)
    ensures Steps(build, s, [a]) == if Enabled(s, a) then Some(Next(build, s, a)) else None
  {
    assert [a][1..] == [];
  }

  lemma Two(build: Version -> Config, s: State, a: Event, b: Event)
    ensures Steps(build, s, [a]) == if Enabled(s, a) then Some(Next(build, s, a)) else None
    ensures Steps(build, s, [a, b])
         == if Enabled(s, a) && Enabled(Next(build, s, a), b) then Some(Next(build, Next(build, s, a), b)) else None
  {
    One(build, s, a);
    assert [a, b][1..] == [b];
    if Enabled(s, a) {
      One(build, Next(build, s, a), b);
    }
  }

  lemma Three(build: Version -> Config, s: State, a: Event, b: Event, c: Event, d: Event)
    requires Steps(build, s, [a, b]).Some?
    ensures Steps(build, s, [a, b, c]) == Steps(build, Steps(build, s, [a, b]).value, [c])
    ensures Steps(build, s, [a, b, c, d]) == Steps(build, Steps(build, s, [a, b]).value, [c, d])
  {
    StepsAppend(build, s, [a, b], [c]);
    StepsAppend(build, s, [a, b], [c, d]);
    assert [a, b] + [c] == [a, b, c] && [a, b] + [c, d] == [a, b, c, d];
  }

  /** A restart by one restarter that nobody gets in the way of, once it is on its way in. */
  datatype Outcome = Outcome(builds: bool, valid: bool, starts: bool, rollsBack: bool)

  function Attempt(t: nat, o: Outcome): seq<Event> {
    if !o.builds then [Acquire(t), BuildFails(t)]
    else if !o.valid then [Acquire(t), Read(t), TestFails(t)]
    else [Acquire(t), Read(t), TestPasses(t), Decide(t)]
  }

  function Launch(t: nat, o: Outcome, wasRunning: bool): seq<Event> {
    if o.starts || !wasRunning then [Start(t, o.starts)] else [Start(t, false), Rollback(t, o.rollsBack)]
  }

  /** Whether a restart stops the process, if any, and starts another. */
  predicate Replaces(running: Option<Config>, config: Config, force: bool, o: Outcome) {
    o.builds && o.valid && (running != Some(config) || force)
  }

  /** What a restart leaves running. */
  function RunningAfter(running: Option<Config>, config: Config, force: bool, o: Outcome): Option<Config> {
    if !Replaces(running, config, force, o) then running
    else if o.starts then Some(config)
    else if running.Some? && o.rollsBack then running
    else None
  }

  predicate Ready(s: State, t: nat) {
    t < |s.threads| && s.threads[t].Waiting? && s.lock.None?
  }

  lemma AttemptFails(build: Version -> Config, s: State, t: nat, o: Outcome)
    requires Ready(s, t) && !(o.builds && o.valid)
    ensures var r := Steps(build, s, Attempt(t, o));
            && r.Some? && r.value.flag == s.flag
            && r.value.threads == s.threads[t := Idle] && r.value.running == s.running
  {
    var s1 := Next(build, s, Acquire(t));
    if !o.builds {
      Two(build, s, Acquire(t), BuildFails(t));
      assert Next(build, s1, BuildFails(t)).threads == s.threads[t := Idle];
    } else {
      Two(build, s, Acquire(t), Read(t));
      var s2 := Next(build, s1, Read(t));
      Three(build, s, Acquire(t), Read(t), TestFails(t), TestFails(t));
      One(build, s2, TestFails(t));
      assert Next(build, s2, TestFails(t)).threads == s.threads[t := Idle];
    }
  }

  lemma AttemptPasses(build: Version -> Config, s: State, t: nat, o: Outcome)
    requires Ready(s, t) && o.builds && o.valid
    ensures var r := Steps(build, s, Attempt(t, o));
            && r.Some? && r.value.flag == s.flag
            && (if Replaces(s.running, build(s.db), s.threads[t].force, o)
                then r.value.threads == s.threads[t := Stopped(s.db, s.running)] && r.value.running.None?
                else r.value.threads == s.threads[t := Idle] && r.value.running == s.running)
  {
    var s1 := Next(build, s, Acquire(t));
    Two(build, s, Acquire(t), Read(t));
    var s2 := Next(build, s1, Read(t));
    assert s2.threads == s.threads[t := Built(s.threads[t].force, s.db)];
    Three(build, s, Acquire(t), Read(t), TestPasses(t), Decide(t));
    Two(build, s2, TestPasses(t), Decide(t));
    var s3 := Next(build, s2, TestPasses(t));
    assert s3.threads == s.threads[t := Passed(s.threads[t].force, s.db)];
    var s4 := Next(build, s3, Decide(t));
    assert s4.threads == s.threads[t := s4.threads[t]];
  }

  /** Run on its own, a restarter does to the process what RunningAfter says, and returns. */
  lemma RestartAlone(build: Version -> Config, s: State, t: nat, o: Outcome)
    requires Ready(s, t)
    ensures var force := s.threads[t].force;
            var events := Attempt(t, o)
                          + if Replaces(s.running, build(s.db), force, o) then Launch(t, o, s.running.Some?) else [];
            var r := Steps(build, s, events);
            && r.Some? && r.value.running == RunningAfter(s.running, build(s.db), force, o)
            && r.value.flag == s.flag && r.value.threads == s.threads[t := Idle]
  {
    if o.builds && o.valid { AttemptPasses(build, s, t, o); } else { AttemptFails(build, s, t, o); }
    var r := Steps(build, s, Attempt(t, o)).value;
    if Replaces(s.running, build(s.db), s.threads[t].force, o) {
      var launch := Launch(t, o, s.running.Some?);
      StepsAppend(build, s, Attempt(t, o), launch);
      Two(build, r, Start(t, o.starts), Rollback(t, o.rollsBack));
      var end := Steps(build, r, launch).value;
      assert end.threads == s.threads[t := Idle];
    } else {
      assert Attempt(t, o) + [] == Attempt(t, o);
    }
  }

  /**
   The flag is cleared before the restart is tried. When the new configuration is not valid, or does not start and
   is rolled back, the process keeps the old one, and nothing is left that would try again.
   */
  lemma RefusedIsLost(build: Version -> Config, s: State, t: nat, o: Outcome)
    requires t < |s.threads| && (forall q :: 0 <= q < |s.threads| ==> s.threads[q].Idle?) && s.lock.None?
    requires s.flag && s.unflagged == {} && s.running.Some? && s.running.value != build(s.db)
    ensures var claimed := Next(build, s, Claim(t));
            var events := [Claim(t)] + (Attempt(t, o)
                          + if Replaces(s.running, build(s.db), false, o) then Launch(t, o, true) else []);
            var r := Steps(build, s, events);
            && r.Some? && !r.value.flag && (forall p <- r.value.threads :: p.Idle?)
            && (r.value.running == Some(build(s.db)) <==> o.builds && o.valid && o.starts)
            && (r.value.running == s.running <==> !o.builds || !o.valid || (!o.starts && o.rollsBack))
  {
    var claimed := Next(build, s, Claim(t));
    var rest := Attempt(t, o) + if Replaces(s.running, build(s.db), false, o) then Launch(t, o, true) else [];
    RestartAlone(build, claimed, t, o);
    StepsAppend(build, s, [Claim(t)], rest);
    Two(build, s, Claim(t), Claim(t));
  }
}
