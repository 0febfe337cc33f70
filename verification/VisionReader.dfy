/** `VisionReader.ReadMultiBuffer`, and when a whole run of reads delivers what was sent. */
module VisionReading {
  import opened Bytes
  import opened Sequences
  import opened VisionUnpad
  import opened VisionCodec
  import opened TlsFilter

  /** The reading state of one direction. */
  datatype ReaderState = ReaderState(c: Counters, within: bool, direct: bool)

  const FIRST_READ := ReaderState(INITIAL, true, false)

  /**
   One read: the buffers the underlying reader returned, what the TLS connection below still held
   (decrypted and raw), and whether packets were still being filtered at that time.
   */
  datatype Read = Read(mb: seq<seq<byte>>, input: seq<byte>, rawInput: seq<byte>, filtering: bool)

  /** What the reader concludes from the counters once the buffers are unpadded. */
  function Judge(c: Counters, within: bool): (bool, bool) {
    if c.content > 0 || c.padding > 0 || c.current == 0 then (true, false)
    else if c.current == 1 then (false, false)
    else if c.current == 2 then (false, true)
    else (within, false)
  }

  /** The outcome of a read: the state, the bytes delivered, and the bytes taken from the stream. */
  datatype Delivery = Delivery(r: ReaderState, out: seq<byte>, used: seq<byte>)

  predicate PassesRaw(r: ReaderState, rd: Read) {
    r.direct || !(r.within || rd.filtering)
  }

  function ReadStep(uuid: seq<byte>, r: ReaderState, rd: Read): (d: Delivery)
    requires Reachable(r.c)
    ensures Reachable(d.r.c)
    ensures |d.out| <= |d.used|
  {
    var all := Flatten(rd.mb);
    if all == [] then Delivery(r, [], [])
    else if PassesRaw(r, rd) then Delivery(r, all, all)
    else
      var (c, o) := UnpadAll(uuid, r.c, rd.mb);
      var (within, direct) := Judge(c, r.within);
      var left := if direct then rd.input + rd.rawInput else [];
      Delivery(ReaderState(c, within, direct), o + left, all + left)
  }

  function ReadAll(uuid: seq<byte>, r: ReaderState, run: seq<Read>): (d: Delivery)
    requires Reachable(r.c)
    ensures Reachable(d.r.c)
    ensures |d.out| <= |d.used|
    decreases |run|
  {
    if run == [] then Delivery(r, [], [])
    else
      var d1 := ReadStep(uuid, r, run[0]);
      var d2 := ReadAll(uuid, d1.r, run[1..]);
      Delivery(d2.r, d1.out + d2.out, d1.used + d2.used)
  }

  // ---- exactly when a run delivers the contents ----

  /**
   A read is handled properly: bytes pass unchanged only outside a block, and no buffer that is
   unpadded after the end looks like a fresh start.
   */
  predicate Proper(uuid: seq<byte>, r: ReaderState, rd: Read)
    requires Reachable(r.c)
  {
    if Flatten(rd.mb) == [] then true
    else if PassesRaw(r, rd) then Idle(r.c)
    else
      var (c, o) := UnpadAll(uuid, r.c, rd.mb);
      Quiet(uuid, r.c, rd.mb) && (Judge(c, r.within).1 && rd.input + rd.rawInput != [] ==> Idle(c))
  }

  predicate AllProper(uuid: seq<byte>, r: ReaderState, run: seq<Read>)
    requires Reachable(r.c)
    decreases |run|
  {
    run == [] || (Proper(uuid, r, run[0]) && AllProper(uuid, ReadStep(uuid, r, run[0]).r, run[1..]))
  }

  /** The filter, once done, stays done. */
  predicate FilteringEnds(run: seq<Read>) {
    forall i, j :: 0 <= i < j < |run| && run[j].filtering ==> run[i].filtering
  }

  /** Padding is believed over inside a block only in the middle of a header. */
  predicate ReaderInvariant(r: ReaderState) {
    Reachable(r.c) && (r.direct ==> !r.within) && (!r.within && InBlock(r.c) ==> r.c.command > 0)
  }

  lemma JudgeKeeps(c: Counters, within: bool)
    requires Reachable(c)
    ensures ReaderInvariant(ReaderState(c, Judge(c, within).0, Judge(c, within).1))
  {}

  lemma StepKeeps(uuid: seq<byte>, r: ReaderState, rd: Read)
    requires ReaderInvariant(r)
    ensures ReaderInvariant(ReadStep(uuid, r, rd).r)
  {
    if Flatten(rd.mb) != [] && !PassesRaw(r, rd) {
      JudgeKeeps(UnpadAll(uuid, r.c, rd.mb).0, r.within);
    }
  }

  /** Once everything passes unchanged, it does so to the end. */
  lemma {:induction false} AllRaw(uuid: seq<byte>, r: ReaderState, run: seq<Read>)
    requires Reachable(r.c)
    requires r.direct || (!r.within && forall rd <- run :: !rd.filtering)
    ensures ReadAll(uuid, r, run).out == ReadAll(uuid, r, run).used
    decreases |run|
  {
    if run != [] {
      assert PassesRaw(r, run[0]);
      AllRaw(uuid, r, run[1..]);
    }
  }

  /** After a restart the reference automaton is past the end. */
  lemma {:induction false} NotQuietIsIdle(uuid: seq<byte>, c: Counters, cuts: seq<seq<byte>>)
    requires Reachable(c) && !Quiet(uuid, c, cuts)
    ensures Idle(Run(c, Flatten(cuts)).0)
    decreases |cuts|
  {
    if Idle(c) {
      RunIdle(c, Flatten(cuts));
    } else {
      RunConcat(c, cuts[0], Flatten(cuts[1..]));
      NotQuietIsIdle(uuid, UnpadBuffer(uuid, c, cuts[0]).0, cuts[1..]);
    }
  }

  /** How a delivery compares with the byte automaton on the same stream. */
  predicate Exact(proper: bool, d: Delivery, c: Counters)
    requires Reachable(c)
  {
    if proper then Run(c, d.used) == (d.r.c, d.out) else |d.out| != |Run(c, d.used).1|
  }

  lemma ExactRaw(uuid: seq<byte>, r: ReaderState, rd: Read, rest: seq<Read>)
    requires ReaderInvariant(r) && FilteringEnds([rd] + rest)
    requires Flatten(rd.mb) != [] && PassesRaw(r, rd) && !Idle(r.c)
    ensures Exact(false, ReadAll(uuid, r, [rd] + rest), r.c)
  {
    var run := [rd] + rest;
    assert run[1..] == rest && run[0] == rd;
    forall x | x in rest
      ensures !r.direct ==> !x.filtering
    {
      var j :| 0 <= j < |rest| && rest[j] == x;
      assert run[j + 1] == x;
    }
    AllRaw(uuid, r, rest);
    var d := ReadAll(uuid, r, run);
    assert d.out == d.used && d.used != [];
  }

  /** A proper first part, then whatever follows. */
  lemma ExactThen(proper: bool, c: Counters, c1: Counters, o1: seq<byte>, u1: seq<byte>, d: Delivery)
    requires Reachable(c) && Reachable(c1) && Run(c, u1) == (c1, o1) && Exact(proper, d, c1)
    ensures Exact(proper, Delivery(d.r, o1 + d.out, u1 + d.used), c)
  {
    RunConcat(c, u1, d.used);
  }

  /** The switch to direct copy comes too early: the rest of the header is taken for content. */
  lemma ExactEarlySwitch(uuid: seq<byte>, r: ReaderState, rd: Read, rest: seq<Read>)
    requires Reachable(r.c) && Flatten(rd.mb) != [] && !PassesRaw(r, rd) && Quiet(uuid, r.c, rd.mb)
    requires var c := UnpadAll(uuid, r.c, rd.mb).0; Judge(c, r.within).1 && !Idle(c)
    requires rd.input + rd.rawInput != []
    ensures Exact(false, ReadAll(uuid, r, [rd] + rest), r.c)
  {
    var all, left := Flatten(rd.mb), rd.input + rd.rawInput;
    var run := [rd] + rest;
    assert run[1..] == rest && run[0] == rd;
    CutsMatter(uuid, r.c, rd.mb);
    var (c, o) := Run(r.c, all);
    JudgeKeeps(c, r.within);
    var d1 := ReadStep(uuid, r, rd);
    AllRaw(uuid, d1.r, rest);
    var tail := left + ReadAll(uuid, d1.r, rest).used;
    RunConcat(r.c, all, tail);
    Assoc(all, left, ReadAll(uuid, d1.r, rest).used);
    assert |Run(c, tail).1| < |tail|;
    assert |ReadAll(uuid, r, run).out| == |o| + |tail|;
  }

  /** A buffer taken for a fresh start loses bytes that nothing makes up for. */
  lemma ExactRestart(uuid: seq<byte>, r: ReaderState, rd: Read, rest: seq<Read>)
    requires Reachable(r.c) && Flatten(rd.mb) != [] && !PassesRaw(r, rd) && !Quiet(uuid, r.c, rd.mb)
    ensures Exact(false, ReadAll(uuid, r, [rd] + rest), r.c)
  {
    var all := Flatten(rd.mb);
    var run := [rd] + rest;
    assert run[1..] == rest && run[0] == rd;
    CutsMatter(uuid, r.c, rd.mb);
    NotQuietIsIdle(uuid, r.c, rd.mb);
    var d := ReadAll(uuid, r, run);
    assert d.used[..|all|] == all;
    var tail := d.used[|all|..];
    assert d.used == all + tail;
    RunConcat(r.c, all, tail);
    RunIdle(Run(r.c, all).0, tail);
  }

  /**
   A run of reads delivers what the byte automaton makes of the stream it consumed if and only if every
   read was proper; an improper read shows in the number of bytes delivered.
   */
  lemma {:induction false} ExactRun(uuid: seq<byte>, r: ReaderState, run: seq<Read>)
    requires ReaderInvariant(r) && FilteringEnds(run)
    ensures Exact(AllProper(uuid, r, run), ReadAll(uuid, r, run), r.c)
    decreases |run|
  {
    if run == [] {
      return;
    }
    var rd, rest := run[0], run[1..];
    var all := Flatten(rd.mb);
    var d1 := ReadStep(uuid, r, rd);
    assert run == [rd] + rest;
    if all != [] && PassesRaw(r, rd) && !Idle(r.c) {
      ExactRaw(uuid, r, rd, rest);
    } else if all != [] && !PassesRaw(r, rd) && !Quiet(uuid, r.c, rd.mb) {
      ExactRestart(uuid, r, rd, rest);
    } else if !Proper(uuid, r, rd) {
      ExactEarlySwitch(uuid, r, rd, rest);
    } else {
      ProperStep(uuid, r, rd);
      StepKeeps(uuid, r, rd);
      ExactRun(uuid, d1.r, rest);
      ExactThen(AllProper(uuid, d1.r, rest), r.c, d1.r.c, d1.out, d1.used, ReadAll(uuid, d1.r, rest));
    }
  }

  lemma ProperStep(uuid: seq<byte>, r: ReaderState, rd: Read)
    requires Reachable(r.c) && Proper(uuid, r, rd)
    ensures var d := ReadStep(uuid, r, rd); Run(r.c, d.used) == (d.r.c, d.out)
  {
    var all := Flatten(rd.mb);
    if all == [] {
    } else if PassesRaw(r, rd) {
      RunIdle(r.c, all);
    } else {
      CutsMatter(uuid, r.c, rd.mb);
      var (c, o) := Run(r.c, all);
      var left := if Judge(c, r.within).1 then rd.input + rd.rawInput else [];
      RunConcat(r.c, all, left);
      if left != [] {
        RunIdle(c, left);
      }
    }
  }

  // ---- the code ----

  lemma {:induction false} UnpadSnoc(uuid: seq<byte>, c: Counters, cuts: seq<seq<byte>>, b: seq<byte>)
    requires Reachable(c)
    ensures var (c1, o1) := UnpadAll(uuid, c, cuts); var (c2, o2) := UnpadBuffer(uuid, c1, b);
            UnpadAll(uuid, c, cuts + [b]) == (c2, o1 + o2)
    decreases |cuts|
  {
    if cuts == [] {
      assert [] + [b] == [b] && [b][1..] == [];
      assert [] + UnpadBuffer(uuid, c, b).1 == UnpadBuffer(uuid, c, b).1 == UnpadBuffer(uuid, c, b).1 + [];
    } else {
      var (c1, o1) := UnpadBuffer(uuid, c, cuts[0]);
      UnpadSnoc(uuid, c1, cuts[1..], b);
      assert (cuts + [b])[1..] == cuts[1..] + [b];
      var (c2, o2) := UnpadAll(uuid, c1, cuts[1..]);
      Assoc(o1, o2, UnpadBuffer(uuid, c2, b).1);
    }
  }

  /** The buffers that unpadding leaves: those that are not empty. */
  function Kept(uuid: seq<byte>, c: Counters, cuts: seq<seq<byte>>): seq<seq<byte>>
    requires Reachable(c)
    decreases |cuts|
  {
    if cuts == [] then []
    else
      var (c1, o1) := UnpadBuffer(uuid, c, cuts[0]);
      (if o1 == [] then [] else [o1]) + Kept(uuid, c1, cuts[1..])
  }

  lemma {:induction false} KeptSnoc(uuid: seq<byte>, c: Counters, cuts: seq<seq<byte>>, b: seq<byte>)
    requires Reachable(c)
    ensures var o := UnpadBuffer(uuid, UnpadAll(uuid, c, cuts).0, b).1;
            Kept(uuid, c, cuts + [b]) == Kept(uuid, c, cuts) + if o == [] then [] else [o]
    decreases |cuts|
  {
    if cuts == [] {
      assert cuts + [b] == [b] && [b][1..] == [];
    } else {
      var (c1, o1) := UnpadBuffer(uuid, c, cuts[0]);
      assert (cuts + [b])[1..] == cuts[1..] + [b];
      KeptSnoc(uuid, c1, cuts[1..], b);
    }
  }

  /** The buffers as the filter sees them. */
  function Buffers(bs: seq<seq<byte>>, beyond: seq<byte>): (mb: seq<Buffer>)
    ensures |beyond| >= 301 ==> AllBacked(mb)
  {
    seq(|bs|, k requires 0 <= k < |bs| => Buffer(bs[k], beyond))
  }

  /** What a read makes of the filter: it sees the unpadded buffers, as long as there are packets to filter. */
  function FilterAfter(uuid: seq<byte>, f: Filter, r: ReaderState, mb: seq<seq<byte>>, beyond: seq<byte>): Filter
    requires Reachable(r.c) && |beyond| >= 301
  {
    if Flatten(mb) == [] || r.direct then f else Gated(f, Buffers(Kept(uuid, r.c, mb), beyond))
  }

  // ---- what the filter sees over a run ----

  /** What unpadding makes of each buffer, in order. */
  function Unpadded(uuid: seq<byte>, c: Counters, cuts: seq<seq<byte>>): seq<seq<byte>>
    requires Reachable(c)
  {
    seq(|cuts|, k requires 0 <= k < |cuts| => UnpadBuffer(uuid, UnpadAll(uuid, c, cuts[..k]).0, cuts[k]).1)
  }

  function NonEmpty(bs: seq<seq<byte>>): seq<seq<byte>> {
    if bs == [] then [] else NonEmpty(bs[..|bs| - 1]) + if bs[|bs| - 1] == [] then [] else [bs[|bs| - 1]]
  }

  /** The buffers kept are what each buffer unpads to, in order, the empty ones aside; they hold all that comes out. */
  lemma {:induction false} KeptIsUnpadded(uuid: seq<byte>, c: Counters, cuts: seq<seq<byte>>)
    requires Reachable(c)
    ensures Kept(uuid, c, cuts) == NonEmpty(Unpadded(uuid, c, cuts))
    ensures Flatten(Kept(uuid, c, cuts)) == UnpadAll(uuid, c, cuts).1
    decreases |cuts|
  {
    if cuts != [] {
      var (front, b) := (cuts[..|cuts| - 1], cuts[|cuts| - 1]);
      assert cuts == front + [b];
      KeptIsUnpadded(uuid, c, front);
      KeptSnoc(uuid, c, front, b);
      UnpadSnoc(uuid, c, front, b);
      UnpaddedSnoc(uuid, c, front, b);
      var o := UnpadBuffer(uuid, UnpadAll(uuid, c, front).0, b).1;
      FlattenSnoc(Kept(uuid, c, front), o);
      assert Kept(uuid, c, front) + [] == Kept(uuid, c, front);
    }
  }

  lemma UnpaddedSnoc(uuid: seq<byte>, c: Counters, cuts: seq<seq<byte>>, b: seq<byte>)
    requires Reachable(c)
    ensures var outs := Unpadded(uuid, c, cuts + [b]);
            outs == Unpadded(uuid, c, cuts) + [UnpadBuffer(uuid, UnpadAll(uuid, c, cuts).0, b).1]
            && outs[..|outs| - 1] == Unpadded(uuid, c, cuts)
  {
    assert (cuts + [b])[..|cuts|] == cuts;
    forall k | 0 <= k < |cuts| ensures (cuts + [b])[..k] == cuts[..k] { TakeFirst(cuts, [b], k); }
  }

  /** What happens to a reader and to the filter it shares: a read of its own, or packets of the other direction. */
  datatype Incident =
    | Incoming(mb: seq<seq<byte>>, input: seq<byte>, rawInput: seq<byte>, beyond: seq<byte>)
    | Elsewhere(packets: seq<Buffer>)

  predicate Allowed(i: Incident) {
    if i.Incoming? then |i.beyond| >= 301 else AllBacked(i.packets)
  }

  datatype Watch = Watch(r: ReaderState, f: Filter)

  function WatchStep(uuid: seq<byte>, w: Watch, i: Incident): (w': Watch)
    requires Reachable(w.r.c) && Allowed(i)
    ensures Reachable(w'.r.c)
  {
    match i
    case Elsewhere(packets) => w.(f := Gated(w.f, packets))
    case Incoming(mb, input, rawInput, beyond) =>
      Watch(ReadStep(uuid, w.r, Read(mb, input, rawInput, w.f.packets > 0)).r,
            FilterAfter(uuid, w.f, w.r, mb, beyond))
  }

  function WatchAll(uuid: seq<byte>, w: Watch, run: seq<Incident>): (w': Watch)
    requires Reachable(w.r.c) && forall i <- run :: Allowed(i)
    decreases |run|
  {
    if run == [] then w else WatchAll(uuid, WatchStep(uuid, w, run[0]), run[1..])
  }

  /** The packets of a run: of each read what its buffers unpad to, of the other direction everything. */
  function Packetized(uuid: seq<byte>, w: Watch, run: seq<Incident>): (calls: seq<seq<Buffer>>)
    requires Reachable(w.r.c) && forall i <- run :: Allowed(i)
    ensures |calls| == |run|
    ensures forall mb <- calls :: AllBacked(mb)
    decreases |run|
  {
    if run == [] then []
    else
      [match run[0]
       case Elsewhere(packets) => packets
       case Incoming(mb, _, _, beyond) =>
         if w.r.direct then [] else Buffers(NonEmpty(Unpadded(uuid, w.r.c, mb)), beyond)]
      + Packetized(uuid, WatchStep(uuid, w, run[0]), run[1..])
  }

  lemma {:induction false} NothingUnpads(uuid: seq<byte>, c: Counters, cuts: seq<seq<byte>>)
    requires Reachable(c) && Flatten(cuts) == []
    ensures Kept(uuid, c, cuts) == []
    decreases |cuts|
  {
    if cuts != [] {
      NothingUnpads(uuid, UnpadBuffer(uuid, c, cuts[0]).0, cuts[1..]);
    }
  }

  lemma StepSees(uuid: seq<byte>, w: Watch, i: Incident)
    requires Reachable(w.r.c) && Allowed(i)
    ensures WatchStep(uuid, w, i).f == Gated(w.f, Packetized(uuid, w, [i])[0])
  {
    if i.Incoming? {
      KeptIsUnpadded(uuid, w.r.c, i.mb);
      if Flatten(i.mb) == [] {
        NothingUnpads(uuid, w.r.c, i.mb);
      }
    }
  }

  /**
   Over every run the filter is the gated run of the filter over the packets: what the buffers of each read unpad to,
   without the empty ones, in order, up to the switch to direct copy, and what the other direction sends.
   */
  lemma {:induction false} FilterSeesDeliveries(uuid: seq<byte>, w: Watch, run: seq<Incident>)
    requires Reachable(w.r.c) && forall i <- run :: Allowed(i)
    ensures WatchAll(uuid, w, run).f == FilterRun(w.f, Packetized(uuid, w, run))
    decreases |run|
  {
    if run != [] {
      StepSees(uuid, w, run[0]);
      FilterSeesDeliveries(uuid, WatchStep(uuid, w, run[0]), run[1..]);
    }
  }

  /**
   So direct copy is enabled exactly by a read, or by packets of the other direction, that come in time and show
   TLS 1.3 within a ServerHello of an accepted suite.
   */
  lemma ReadsEnableIff(uuid: seq<byte>, w: Watch, run: seq<Incident>)
    requires Reachable(w.r.c) && forall i <- run :: Allowed(i)
    ensures var calls := Packetized(uuid, w, run);
            && (forall i | 0 <= i < |calls| :: AllBacked(Packets(calls[..i]) + calls[i]))
            && (WatchAll(uuid, w, run).f.enableXtls
                <==> w.f.enableXtls || exists i :: 0 <= i < |calls| && EnabledBy(w.f, calls, i))
  {
    FilterSeesDeliveries(uuid, w, run);
    EnabledIff(w.f, Packetized(uuid, w, run));
  }

  /** And what a read delivers while the padding or the filter lasts is its packets, then the bytes held below. */
  lemma DeliveredArePackets(uuid: seq<byte>, r: ReaderState, rd: Read)
    requires Reachable(r.c) && !PassesRaw(r, rd)
    ensures var d := ReadStep(uuid, r, rd);
            d.out == Flatten(NonEmpty(Unpadded(uuid, r.c, rd.mb))) + if d.r.direct then rd.input + rd.rawInput else []
  {
    KeptIsUnpadded(uuid, r.c, rd.mb);
    if Flatten(rd.mb) == [] {
      NothingUnpads(uuid, r.c, rd.mb);
    }
  }

  class VisionReader {
    const trafficState: TrafficState
    const isUplink: bool
    var input: seq<byte>      // decrypted bytes still held by the connection below
    var rawInput: seq<byte>   // raw bytes still held by the connection below

    constructor (trafficState: TrafficState, isUplink: bool, input: seq<byte>, rawInput: seq<byte>)
      ensures this.trafficState == trafficState && this.isUplink == isUplink
      ensures this.input == input && this.rawInput == rawInput
    {
      this.trafficState, this.isUplink := trafficState, isUplink;
      this.input, this.rawInput := input, rawInput;
    }

    function Link(): LinkState {
      if isUplink then trafficState.inbound else trafficState.outbound
    }

    function Value(): ReaderState
      reads Link()
    {
      ReaderState(Link().Counts(), Link().withinPaddingBuffers, Link().readerDirectCopy)
    }

    function Watched(): Watch
      reads trafficState, Link()
    {
      Watch(Value(), trafficState.FilterValue())
    }

    /** The loop that unpads the buffers of one read and drops those that come out empty. */
    method UnpadBuffers(buffer: seq<seq<byte>>) returns (mb2: seq<seq<byte>>)
      requires Reachable(Link().Counts())
      modifies Link()`remainingCommand, Link()`remainingContent, Link()`remainingPadding, Link()`currentCommand
      ensures (Link().Counts(), Flatten(mb2)) == UnpadAll(trafficState.userUUID, old(Link().Counts()), buffer)
      ensures mb2 == Kept(trafficState.userUUID, old(Link().Counts()), buffer)
    {
      mb2 := [];
      var link := Link();
      ghost var c0 := link.Counts();
      for k := 0 to |buffer|
        invariant Reachable(link.Counts())
        invariant (link.Counts(), Flatten(mb2)) == UnpadAll(trafficState.userUUID, c0, buffer[..k])
        invariant mb2 == Kept(trafficState.userUUID, c0, buffer[..k])
      {
        var newbuffer := link.XtlsUnpadding(buffer[k], trafficState.userUUID);
        UnpadSnoc(trafficState.userUUID, c0, buffer[..k], buffer[k]);
        KeptSnoc(trafficState.userUUID, c0, buffer[..k], buffer[k]);
        assert buffer[..k + 1] == buffer[..k] + [buffer[k]];
        FlattenSnoc(mb2, newbuffer);
        if |newbuffer| > 0 {
          mb2 := mb2 + [newbuffer];
        } else {
          assert Flatten(mb2) + newbuffer == Flatten(mb2);
        }
      }
      assert buffer[..|buffer|] == buffer;
    }

    /** Whether the padding goes on, is over, or is over for direct copy. */
    method JudgePadding()
      requires !Link().readerDirectCopy
      modifies Link()`withinPaddingBuffers, Link()`readerDirectCopy
      ensures (Link().withinPaddingBuffers, Link().readerDirectCopy)
              == Judge(Link().Counts(), old(Link().withinPaddingBuffers))
    {
      var link := Link();
      if link.remainingContent > 0 || link.remainingPadding > 0 || link.currentCommand == 0 {
        link.withinPaddingBuffers := true;
      } else if link.currentCommand == 1 {
        link.withinPaddingBuffers := false;
      } else if link.currentCommand == 2 {
        link.withinPaddingBuffers := false;
        link.readerDirectCopy := true;
      }
    }

    /**
     Handles what the underlying reader returned. `beyond` is what the backing arrays of the unpadded
     buffers hold past their ends.
     */
    method ReadMultiBuffer(received: seq<seq<byte>>, beyond: seq<byte>) returns (delivered: seq<byte>)
      requires Reachable(Link().Counts()) && |beyond| >= 301
      modifies this, trafficState, Link()
      ensures var rd := Read(received, old(input), old(rawInput), old(trafficState.numberOfPacketToFilter) > 0);
              var d := ReadStep(trafficState.userUUID, old(Value()), rd);
              && Value() == d.r && delivered == d.out
              && (if !old(Value()).direct && d.r.direct then input == rawInput == []
                  else input == old(input) && rawInput == old(rawInput))
      ensures Watched() == WatchStep(trafficState.userUUID, old(Watched()),
                                     Incoming(received, old(input), old(rawInput), beyond))
      ensures Link().isPadding == old(Link().isPadding) && Link().writerDirectCopy == old(Link().writerDirectCopy)
      ensures trafficState.inbound != trafficState.outbound ==>
                unchanged(if isUplink then trafficState.outbound else trafficState.inbound)
    {
      var link := Link();
      var buffer := received;
      if Flatten(buffer) == [] {
        return [];
      }
      if link.readerDirectCopy {
        return Flatten(buffer);
      }
      ghost var filtering := trafficState.numberOfPacketToFilter > 0;
      if link.withinPaddingBuffers || trafficState.numberOfPacketToFilter > 0 {
        buffer := UnpadBuffers(buffer);
        JudgePadding();
      }
      if trafficState.numberOfPacketToFilter > 0 {
        trafficState.XtlsFilterTls(Buffers(buffer, beyond));
      }
      delivered := Flatten(buffer);
      if link.readerDirectCopy {
        delivered := delivered + (input + rawInput);
        input, rawInput := [], [];
      } else {
        assert delivered + [] == delivered;
      }
    }
  }
}
