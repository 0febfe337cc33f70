/** The index of access records, kept up to date from a log that grows, and what it says about the whole log. */
module AccessIndex {
  import opened Options
  import opened Sequences

  /** A request that was accepted: from where, on the port of which inbound, and when. */
  datatype Event = Event(ip: string, port: int, seenAt: int)

  datatype Record = Record(ip: string, port: int, hits: nat, firstSeen: int, lastSeen: int)

  // ---- one event ----

  predicate Concerns(r: Record, e: Event) {
    r.ip == e.ip && r.port == e.port
  }

  /** The first row for the event, from the k-th on. */
  function Find(rows: seq<Record>, e: Event, k: nat): (i: nat)
    requires k <= |rows|
    ensures k <= i <= |rows| && (i < |rows| ==> Concerns(rows[i], e)) && forall j | k <= j < i :: !Concerns(rows[j], e)
    decreases |rows| - k
  {
    if k == |rows| || Concerns(rows[k], e) then k else Find(rows, e, k + 1)
  }

  /** A record once more; a first time of 0 counts as unset. */
  function Hit(r: Record, e: Event): Record {
    Record(r.ip, e.port, r.hits + 1,
           if r.firstSeen == 0 || e.seenAt < r.firstSeen then e.seenAt else r.firstSeen,
           if e.seenAt >= r.lastSeen then e.seenAt else r.lastSeen)
  }

  function Upsert(rows: seq<Record>, e: Event): seq<Record> {
    var i := Find(rows, e, 0);
    if i == |rows| then rows + [Record(e.ip, e.port, 1, e.seenAt, e.seenAt)] else rows[i := Hit(rows[i], e)]
  }

  function UpsertAll(rows: seq<Record>, es: seq<Event>): seq<Record> {
    if es == [] then rows else Upsert(UpsertAll(rows, es[..|es| - 1]), es[|es| - 1])
  }

  // ---- all events at once ----

  /** When an address was seen on a port. */
  function Times(es: seq<Event>, ip: string, port: int): seq<int> {
    if es == [] then []
    else
      var e := es[|es| - 1];
      Times(es[..|es| - 1], ip, port) + if e.ip == ip && e.port == port then [e.seenAt] else []
  }

  function Least(ts: seq<int>): (m: int)
    requires ts != []
    ensures m in ts && forall t <- ts :: m <= t
  {
    if |ts| == 1 then ts[0]
    else
      assert ts == ts[..|ts| - 1] + [ts[|ts| - 1]];
      var m := Least(ts[..|ts| - 1]);
      if ts[|ts| - 1] < m then ts[|ts| - 1] else m
  }

  function Greatest(ts: seq<int>): (m: int)
    requires ts != []
    ensures m in ts && forall t <- ts :: t <= m
  {
    if |ts| == 1 then ts[0]
    else
      assert ts == ts[..|ts| - 1] + [ts[|ts| - 1]];
      var m := Greatest(ts[..|ts| - 1]);
      if ts[|ts| - 1] > m then ts[|ts| - 1] else m
  }

  /** The first time as the index keeps it: 0 gives way to whatever comes next. */
  function FirstKept(ts: seq<int>): int
    requires ts != []
  {
    if |ts| == 1 then ts[0]
    else
      var (f, t) := (FirstKept(ts[..|ts| - 1]), ts[|ts| - 1]);
      if f == 0 || t < f then t else f
  }

  predicate Summarises(r: Record, ts: seq<int>) {
    ts != [] && r.hits == |ts| && r.firstSeen == FirstKept(ts) && r.lastSeen == Greatest(ts)
  }

  predicate OneRowEach(rows: seq<Record>) {
    forall i, j | 0 <= i < j < |rows| :: rows[i].ip != rows[j].ip || rows[i].port != rows[j].port
  }

  /** One row for each address and port seen, with its count and its times. */
  predicate Indexes(rows: seq<Record>, es: seq<Event>) {
    && OneRowEach(rows)
    && (forall i | 0 <= i < |rows| :: Summarises(rows[i], Times(es, rows[i].ip, rows[i].port)))
    && (forall e <- es :: exists i :: 0 <= i < |rows| && Concerns(rows[i], e))
  }

  function Hits(rows: seq<Record>): nat {
    if rows == [] then 0 else Hits(rows[..|rows| - 1]) + rows[|rows| - 1].hits
  }

  lemma TimesSnoc(es: seq<Event>, e: Event, ip: string, port: int)
    ensures Times(es + [e], ip, port) == Times(es, ip, port) + if e.ip == ip && e.port == port then [e.seenAt] else []
  {
    assert (es + [e])[..|es|] == es;
  }

  lemma {:induction false} NoTimes(es: seq<Event>, ip: string, port: int)
    ensures Times(es, ip, port) == [] <==> forall e <- es :: e.ip != ip || e.port != port
  {
    if es != [] {
      NoTimes(es[..|es| - 1], ip, port);
      assert es == es[..|es| - 1] + [es[|es| - 1]];
    }
  }

  lemma HitSummarises(r: Record, e: Event, ts: seq<int>)
    requires Summarises(r, ts) && Concerns(r, e)
    ensures Summarises(Hit(r, e), ts + [e.seenAt])
  {
    assert (ts + [e.seenAt])[..|ts|] == ts;
  }

  /** The row of an event, and the others, after the event. */
  lemma RowAfter(rows: seq<Record>, es: seq<Event>, e: Event, j: nat)
    requires Indexes(rows, es) && j < |Upsert(rows, e)|
    ensures var r := Upsert(rows, e)[j]; Summarises(r, Times(es + [e], r.ip, r.port))
  {
    var (i, r) := (Find(rows, e, 0), Upsert(rows, e)[j]);
    TimesSnoc(es, e, r.ip, r.port);
    if j == i < |rows| {
      HitSummarises(rows[i], e, Times(es, e.ip, e.port));
    } else if j == i {
      NoTimes(es, e.ip, e.port);
      assert [] + [e.seenAt] == [e.seenAt];
    } else {
      assert Times(es, r.ip, r.port) + [] == Times(es, r.ip, r.port);
    }
  }

  /** An event keeps the index right. */
  lemma UpsertIndexes(rows: seq<Record>, es: seq<Event>, e: Event)
    requires Indexes(rows, es)
    ensures Indexes(Upsert(rows, e), es + [e])
  {
    var rows' := Upsert(rows, e);
    forall j | 0 <= j < |rows'| ensures Summarises(rows'[j], Times(es + [e], rows'[j].ip, rows'[j].port)) {
      RowAfter(rows, es, e, j);
    }
    forall d <- es + [e] ensures exists j :: 0 <= j < |rows'| && Concerns(rows'[j], d) {
      Found(rows, es, e, d);
    }
    OneRowAfter(rows, e);
  }

  lemma OneRowAfter(rows: seq<Record>, e: Event)
    requires OneRowEach(rows)
    ensures OneRowEach(Upsert(rows, e))
  {
  }

  lemma Found(rows: seq<Record>, es: seq<Event>, e: Event, d: Event)
    requires Indexes(rows, es) && d in es + [e]
    ensures exists j :: 0 <= j < |Upsert(rows, e)| && Concerns(Upsert(rows, e)[j], d)
  {
    var rows' := Upsert(rows, e);
    if d == e {
      assert Concerns(rows'[Find(rows, e, 0)], d);
    } else {
      var j :| 0 <= j < |rows| && Concerns(rows[j], d);
      assert Concerns(rows'[j], d);
    }
  }

  lemma {:induction false} UpsertAllIndexes(rows: seq<Record>, before: seq<Event>, es: seq<Event>)
    requires Indexes(rows, before)
    ensures Indexes(UpsertAll(rows, es), before + es)
  {
    if es == [] {
      assert before + es == before;
    } else {
      UpsertAllIndexes(rows, before, es[..|es| - 1]);
      UpsertIndexes(UpsertAll(rows, es[..|es| - 1]), before + es[..|es| - 1], es[|es| - 1]);
      assert before + es[..|es| - 1] + [es[|es| - 1]] == before + es;
    }
  }

  lemma {:induction false} HitsUpdate(rows: seq<Record>, i: nat, r: Record)
    requires i < |rows|
    ensures Hits(rows[i := r]) == Hits(rows) - rows[i].hits + r.hits
  {
    var k := |rows| - 1;
    if i < k {
      HitsUpdate(rows[..k], i, r);
      assert rows[i := r][..k] == rows[..k][i := r];
    } else {
      assert rows[i := r][..k] == rows[..k];
    }
  }

  lemma {:induction false} HitsUpsertAll(rows: seq<Record>, es: seq<Event>)
    ensures Hits(UpsertAll(rows, es)) == Hits(rows) + |es|
  {
    if es != [] {
      var (e, before) := (es[|es| - 1], UpsertAll(rows, es[..|es| - 1]));
      HitsUpsertAll(rows, es[..|es| - 1]);
      var i := Find(before, e, 0);
      if i < |before| {
        HitsUpdate(before, i, Hit(before[i], e));
      } else {
        assert (before + [Record(e.ip, e.port, 1, e.seenAt, e.seenAt)])[..|before|] == before;
      }
    }
  }

  /** For times that are not negative, the first time kept is the least one unless 0 was seen, but not last. */
  lemma {:induction false} FirstIsLeast(ts: seq<int>)
    requires ts != [] && forall t <- ts :: t >= 0
    ensures FirstKept(ts) == Least(ts) <==> 0 !in ts || ts[|ts| - 1] == 0
    ensures FirstKept(ts) >= 0 && (FirstKept(ts) == 0 <==> ts[|ts| - 1] == 0)
  {
    if |ts| > 1 {
      var k := |ts| - 1;
      assert ts == ts[..k] + [ts[k]];
      assert forall t <- ts[..k] :: t in ts;
      FirstIsLeast(ts[..k]);
    }
  }

  /** Positive times: count, minimum and maximum. */
  lemma IndexIsExact(rows: seq<Record>, es: seq<Event>, i: nat)
    requires Indexes(rows, es) && i < |rows| && forall e <- es :: e.seenAt > 0
    ensures var ts := Times(es, rows[i].ip, rows[i].port);
            ts != [] && rows[i].hits == |ts| && rows[i].firstSeen == Least(ts) && rows[i].lastSeen == Greatest(ts)
  {
    TimesPositive(es, rows[i].ip, rows[i].port);
    FirstIsLeast(Times(es, rows[i].ip, rows[i].port));
  }

  lemma {:induction false} TimesPositive(es: seq<Event>, ip: string, port: int)
    requires forall e <- es :: e.seenAt > 0
    ensures forall t <- Times(es, ip, port) :: t > 0
  {
    if es != [] {
      TimesPositive(es[..|es| - 1], ip, port);
      assert es[|es| - 1].seenAt > 0;
    }
  }

  // ---- schedules ----

  /** The lines of the log that are requests, in order. */
  function Accepted(parse: string -> Option<Event>, lines: seq<string>): seq<Event> {
    if lines == [] then []
    else
      var e := parse(lines[|lines| - 1]);
      Accepted(parse, lines[..|lines| - 1]) + if e.Some? then [e.value] else []
  }

  lemma {:induction false} AcceptedAppend(parse: string -> Option<Event>, a: seq<string>, b: seq<string>)
    ensures Accepted(parse, a + b) == Accepted(parse, a) + Accepted(parse, b)
  {
    if b == [] {
      assert a + b == a;
    } else {
      var k := |b| - 1;
      AcceptedAppend(parse, a, b[..k]);
      assert (a + b)[..|a + b| - 1] == a + b[..k];
      var last := if parse(b[k]).Some? then [parse(b[k]).value] else [];
      Assoc(Accepted(parse, a), Accepted(parse, b[..k]), last);
    }
  }

  /**
   The log, how far it has been read, the rows, and the settings; `base` is how far the log went at the last clear,
   `counted` are the events taken in since.
   */
  datatype State = State(log: seq<string>, offset: nat, enabled: bool, rows: seq<Record>, base: nat,
                         counted: seq<Event>)

  datatype Action = Grow(lines: seq<string>) | Process | Clear | Configure(enabled: bool)

  function Start(enabled: bool): State {
    State([], 0, enabled, [], 0, [])
  }

  function Do(parse: string -> Option<Event>, s: State, a: Action): State {
    match a
    case Grow(lines) => s.(log := s.log + lines)
    case Process =>
      if !s.enabled then s
      else
        var from := if |s.log| < s.offset then 0 else s.offset;
        var es := Accepted(parse, s.log[from..]);
        s.(offset := |s.log|, rows := UpsertAll(s.rows, es), counted := s.counted + es)
    case Clear => s.(offset := |s.log|, rows := [], base := |s.log|, counted := [])
    case Configure(enabled) =>
      s.(enabled := enabled, offset := if s.enabled && !enabled then |s.log| else s.offset)
  }

  function DoAll(parse: string -> Option<Event>, s: State, actions: seq<Action>): State {
    if actions == [] then s else Do(parse, DoAll(parse, s, actions[..|actions| - 1]), actions[|actions| - 1])
  }

  predicate Consistent(s: State) {
    s.base <= s.offset <= |s.log| && Indexes(s.rows, s.counted) && Hits(s.rows) == |s.counted|
  }

  /** Whatever the schedule, the index is that of the events taken in since the last clear, each counted once. */
  lemma {:induction false} IndexAgrees(parse: string -> Option<Event>, enabled: bool, actions: seq<Action>)
    ensures Consistent(DoAll(parse, Start(enabled), actions))
  {
    if actions != [] {
      var s := DoAll(parse, Start(enabled), actions[..|actions| - 1]);
      IndexAgrees(parse, enabled, actions[..|actions| - 1]);
      if actions[|actions| - 1].Process? && s.enabled {
        var es := Accepted(parse, s.log[s.offset..]);
        UpsertAllIndexes(s.rows, s.counted, es);
        HitsUpsertAll(s.rows, es);
      }
    }
  }

  predicate GrowsOrProcesses(actions: seq<Action>) {
    forall a <- actions :: a.Grow? || a.Process?
  }

  lemma {:induction false} WhileOff(parse: string -> Option<Event>, s: State, actions: seq<Action>)
    requires !s.enabled && GrowsOrProcesses(actions)
    ensures var t := DoAll(parse, s, actions);
            && t.rows == s.rows && t.counted == s.counted && t.offset == s.offset && !t.enabled && s.log <= t.log
  {
    if actions != [] {
      WhileOff(parse, s, actions[..|actions| - 1]);
      assert actions[|actions| - 1] in actions;
    }
  }

  /**
   While aggregation is off nothing is counted. The lines that had not been processed when it was switched off never
   are; those that come while it is off are counted once it is on again.
   */
  lemma OffAndOn(parse: string -> Option<Event>, s: State, actions: seq<Action>)
    requires s.enabled && GrowsOrProcesses(actions)
    ensures var t := DoAll(parse, Do(parse, s, Configure(false)), actions);
            var u := Do(parse, Do(parse, t, Configure(true)), Process);
            && t.rows == s.rows && t.counted == s.counted && s.log <= t.log
            && u.counted == s.counted + Accepted(parse, t.log[|s.log|..]) && u.offset == |t.log|
            && u.rows == UpsertAll(s.rows, Accepted(parse, t.log[|s.log|..]))
  {
    WhileOff(parse, Do(parse, s, Configure(false)), actions);
  }

  predicate Settled(actions: seq<Action>) {
    forall a <- actions :: !a.Configure?
  }

  /** What is counted is the log from the last clear up to the offset. */
  predicate Caught(parse: string -> Option<Event>, s: State) {
    s.base <= s.offset <= |s.log| && s.counted == Accepted(parse, s.log[s.base..s.offset])
  }

  lemma ProcessCatches(parse: string -> Option<Event>, s: State)
    requires Caught(parse, s) && s.enabled
    ensures Caught(parse, Do(parse, s, Process))
  {
    AcceptedAppend(parse, s.log[s.base..s.offset], s.log[s.offset..]);
    assert s.log[s.base..s.offset] + s.log[s.offset..] == s.log[s.base..|s.log|];
  }

  lemma GrowCatches(parse: string -> Option<Event>, s: State, lines: seq<string>)
    requires Caught(parse, s)
    ensures Caught(parse, Do(parse, s, Grow(lines)))
  {
    assert (s.log + lines)[s.base..s.offset] == s.log[s.base..s.offset];
  }

  /** While aggregation is never switched off, no line is skipped and none is counted twice. */
  lemma {:induction false} NothingSkipped(parse: string -> Option<Event>, enabled: bool, actions: seq<Action>)
    requires Settled(actions)
    ensures var s := DoAll(parse, Start(enabled), actions);
            Caught(parse, s) && s.enabled == enabled
  {
    if actions != [] {
      var (s, a) := (DoAll(parse, Start(enabled), actions[..|actions| - 1]), actions[|actions| - 1]);
      NothingSkipped(parse, enabled, actions[..|actions| - 1]);
      assert !a.Configure?;
      match a
      case Grow(lines) => GrowCatches(parse, s, lines);
      case Process => if s.enabled { ProcessCatches(parse, s); }
      case Clear =>
    }
  }

  /** Processing in pieces gives what processing the whole log at once gives. */
  lemma IncrementalIsBatch(parse: string -> Option<Event>, actions: seq<Action>)
    requires Settled(actions)
    ensures var s := DoAll(parse, Start(true), actions + [Process]);
            && s.base <= |s.log|
            && var whole := Accepted(parse, s.log[s.base..]);
               && Indexes(s.rows, whole) && Hits(s.rows) == |whole|
               && Indexes(UpsertAll([], whole), whole)
  {
    assert (actions + [Process])[..|actions|] == actions;
    IndexAgrees(parse, true, actions + [Process]);
    NothingSkipped(parse, true, actions + [Process]);
    NothingSkipped(parse, true, actions);
    var s := DoAll(parse, Start(true), actions + [Process]);
    assert s.log[s.base..] == s.log[s.base..s.offset];
    UpsertAllIndexes([], [], Accepted(parse, s.log[s.base..]));
    assert [] + Accepted(parse, s.log[s.base..]) == Accepted(parse, s.log[s.base..]);
  }

  /** An index of some events is the only one, up to the order of its rows. */
  lemma IndexUnique(a: seq<Record>, b: seq<Record>, es: seq<Event>, r: Record)
    requires Indexes(a, es) && Indexes(b, es) && r in a
    ensures r in b
  {
    NoTimes(es, r.ip, r.port);
    var e :| e in es && e.ip == r.ip && e.port == r.port;
    var i :| 0 <= i < |b| && Concerns(b[i], e);
    assert b[i] == r;
  }

  // ---- the service ----

  class AccessIPService {
    const parse: string -> Option<Event>
    var log: seq<string>
    var offset: nat
    var enabled: bool
    var rows: seq<Record>
    ghost var base: nat
    ghost var counted: seq<Event>

    ghost function Value(): State
      reads this
    {
      State(log, offset, enabled, rows, base, counted)
    }

    constructor (parse: string -> Option<Event>, enabled: bool)
      ensures this.parse == parse && Value() == Start(enabled)
    {
      this.parse := parse;
      this.enabled := enabled;
      log, offset, rows := [], 0, [];
      base, counted := 0, [];
    }

    method UpsertRecord(event: Event)
      modifies this`rows
      ensures rows == Upsert(old(rows), event)
    {
      var i := FindRecord(event);
      if i == |rows| {
        rows := rows + [Record(event.ip, event.port, 1, event.seenAt, event.seenAt)];
        return;
      }
      var record := rows[i].(port := event.port, hits := rows[i].hits + 1);
      if record.firstSeen == 0 || event.seenAt < record.firstSeen {
        record := record.(firstSeen := event.seenAt);
      }
      if event.seenAt >= record.lastSeen {
        record := record.(lastSeen := event.seenAt);
      }
      rows := rows[i := record];
    }

    method FindRecord(event: Event) returns (i: nat)
      ensures i == Find(rows, event, 0)
    {
      i := 0;
      while i < |rows| && !Concerns(rows[i], event)
        invariant i <= |rows| && Find(rows, event, 0) == Find(rows, event, i)
      {
        i := i + 1;
      }
    }

    method ProcessAccessLog()
      modifies this
      ensures Value() == Do(parse, old(Value()), Process)
    {
      if !enabled {
        return;
      }
      if |log| < offset {
        offset := 0;
      }
      ghost var was := rows;
      var lines := log[offset..];
      for i := 0 to |lines|
        invariant rows == UpsertAll(was, Accepted(parse, lines[..i]))
        invariant Value().(rows := was) == old(Value()).(offset := offset)
      {
        AcceptedNext(parse, lines, i);
        var event := parse(lines[i]);
        if event.Some? {
          UpsertAllNext(was, Accepted(parse, lines[..i]), event.value);
          UpsertRecord(event.value);
        }
      }
      assert lines[..|lines|] == lines;
      counted := counted + Accepted(parse, lines);
      offset := |log|;
    }

    method ClearAccessIPRecords()
      modifies this
      ensures Value() == Do(parse, old(Value()), Clear)
    {
      rows := [];
      offset := |log|;
      base, counted := |log|, [];
    }

    /** Switching aggregation off skips what has been logged so far. */
    method UpdateConfig(aggregation: bool)
      modifies this
      ensures Value() == Do(parse, old(Value()), Configure(aggregation))
    {
      var current := enabled;
      enabled := aggregation;
      if current && !aggregation {
        offset := |log|;
      }
    }
  }

  lemma AcceptedNext(parse: string -> Option<Event>, lines: seq<string>, i: nat)
    requires i < |lines|
    ensures Accepted(parse, lines[..i + 1])
         == var before := Accepted(parse, lines[..i]);
            if parse(lines[i]).Some? then before + [parse(lines[i]).value] else before
  {
    assert lines[..i + 1][..i] == lines[..i];
  }

  lemma UpsertAllNext(rows: seq<Record>, es: seq<Event>, e: Event)
    ensures UpsertAll(rows, es + [e]) == Upsert(UpsertAll(rows, es), e)
  {
    assert (es + [e])[..|es|] == es;
  }
}
