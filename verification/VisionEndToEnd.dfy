/** A writer at one end, a reader at the other: what arrives is what was written. */
module VisionEndToEnd {
  import opened Bytes
  import opened Sequences
  import opened VisionUnpad
  import opened VisionCodec
  import opened VisionWriting
  import opened VisionReading

  /** The reader just after the identifier. */
  const START := ReaderState(FIRST, true, false)

  predicate OpensWithIdentifier(run: seq<Read>) {
    run != [] && run[0].mb != [] && |run[0].mb[0]| >= 21
  }

  function Bare(run: seq<Read>): seq<Read>
    requires OpensWithIdentifier(run)
  {
    [run[0].(mb := Strip(run[0].mb))] + run[1..]
  }

  /** Every read is proper, once the identifier has been taken off the first one. */
  predicate ProperRun(uuid: seq<byte>, run: seq<Read>)
    requires OpensWithIdentifier(run)
  {
    AllProper(uuid, START, Bare(run))
  }

  lemma BareStep(uuid: seq<byte>, rd: Read)
    requires |uuid| == 16 && rd.mb != [] && |rd.mb[0]| >= 21 && uuid <= Flatten(rd.mb)
    ensures var d, d' := ReadStep(uuid, FIRST_READ, rd), ReadStep(uuid, START, rd.(mb := Strip(rd.mb)));
            && d.r == d'.r && d.out == d'.out && d.used == uuid + d'.used
  {
    var all := Flatten(rd.mb);
    assert all == uuid + all[16..];
    StripFirst(uuid, rd.mb, all[16..]);
    assert all[16..] != [];
    var left := if Judge(UnpadAll(uuid, INITIAL, rd.mb).0, true).1 then rd.input + rd.rawInput else [];
    Assoc(uuid, all[16..], left);
  }

  lemma BareRun(uuid: seq<byte>, run: seq<Read>, stream: seq<byte>)
    requires |uuid| == 16 && OpensWithIdentifier(run)
    requires ReadAll(uuid, FIRST_READ, run).used == uuid + stream
    ensures ReadAll(uuid, START, Bare(run)) == ReadAll(uuid, FIRST_READ, run).(used := stream)
  {
    var rd, rest, bare := run[0], run[1..], Bare(run);
    assert bare[1..] == rest;
    var all := Flatten(rd.mb);
    var d1, d1' := ReadStep(uuid, FIRST_READ, rd), ReadStep(uuid, START, bare[0]);
    var d2 := ReadAll(uuid, d1.r, rest);
    assert |all| >= 21 && all <= d1.used;
    assert uuid + stream == d1.used + d2.used;
    assert all[..16] == (d1.used + d2.used)[..16] == (uuid + stream)[..16] == uuid;
    BareStep(uuid, rd);
    Assoc(uuid, d1'.used, d2.used);
    assert stream == (uuid + stream)[16..] == (uuid + (d1'.used + d2.used))[16..] == d1'.used + d2.used;
  }

  /** What the automaton makes of everything the writer has emitted. */
  lemma EmittedStream(uuid: seq<byte>, h: History)
    requires Carried(uuid, h)
    ensures Run(FIRST, Wire(h.e.blocks) + h.e.raw).1 == Contents(h.e.blocks) + h.e.raw
    ensures h.w.direct || h.w.raw <==> Run(FIRST, Wire(h.e.blocks) + h.e.raw).0.current == 2
  {
    if h.w.isPadding {
      RunContinue(FIRST, h.e.blocks);
      assert Wire(h.e.blocks) + [] == Wire(h.e.blocks) && Contents(h.e.blocks) + [] == Contents(h.e.blocks);
    } else {
      WholeStream(h.e.blocks, h.e.raw);
    }
  }

  /** The direct-copy flag of the reader follows its counters. */
  predicate Settled(r: ReaderState) {
    (r.direct ==> r.c.current == 2) && (Idle(r.c) && r.c.current == 2 ==> r.direct)
  }

  lemma {:induction false} StaysSettled(uuid: seq<byte>, r: ReaderState, run: seq<Read>)
    requires Reachable(r.c) && Settled(r)
    ensures Settled(ReadAll(uuid, r, run).r)
    decreases |run|
  {
    if run != [] {
      StaysSettled(uuid, ReadStep(uuid, r, run[0]).r, run[1..]);
    }
  }

  /**
   End-to-end transparency. For every run of the writer, with filter calls of the other direction in
   between, and every way in which the peer's reads take the emitted stream off the two connections: the
   bytes delivered are the bytes written if and only if every read is proper.
   */
  lemma Transparency(s: Seed, uuid: seq<byte>, events: seq<Event>, run: seq<Read>)
    requires |uuid| == 16 && GoodSeed(s) && forall event <- events :: Possible(event)
    requires OpensWithIdentifier(run) && FilteringEnds(run)
    requires var h := HappenAll(s, Begin(uuid), events);
             ReadAll(uuid, FIRST_READ, run).used == h.outer + h.rawConn
    ensures ReadAll(uuid, FIRST_READ, run).out == Written(events) <==> ProperRun(uuid, run)
  {
    var h := HappenAll(s, Begin(uuid), events);
    EmittedIs(s, uuid, events);
    SomethingRead(uuid, run);
    ExactFromStart(uuid, run, Wire(h.e.blocks) + h.e.raw);
    EmittedStream(uuid, h);
  }

  /** And after a proper run the reader has switched to raw copy exactly if the writer has. */
  lemma SwitchTogether(s: Seed, uuid: seq<byte>, events: seq<Event>, run: seq<Read>)
    requires |uuid| == 16 && GoodSeed(s) && forall event <- events :: Possible(event)
    requires OpensWithIdentifier(run) && FilteringEnds(run) && ProperRun(uuid, run)
    requires var h := HappenAll(s, Begin(uuid), events);
             ReadAll(uuid, FIRST_READ, run).used == h.outer + h.rawConn
    ensures var w := HappenAll(s, Begin(uuid), events).w;
            ReadAll(uuid, FIRST_READ, run).r.direct <==> w.direct || w.raw
  {
    var h := HappenAll(s, Begin(uuid), events);
    EmittedIs(s, uuid, events);
    SomethingRead(uuid, run);
    var stream := Wire(h.e.blocks) + h.e.raw;
    ExactFromStart(uuid, run, stream);
    EmittedStream(uuid, h);
    StaysSettled(uuid, FIRST_READ, run);
    AutomatonSettles(uuid, h, stream);
  }

  lemma ExactFromStart(uuid: seq<byte>, run: seq<Read>, stream: seq<byte>)
    requires |uuid| == 16 && OpensWithIdentifier(run) && FilteringEnds(run)
    requires ReadAll(uuid, FIRST_READ, run).used == uuid + stream
    ensures var d := ReadAll(uuid, FIRST_READ, run);
            Exact(ProperRun(uuid, run), d.(used := stream), FIRST)
  {
    BareRun(uuid, run, stream);
    BareFilteringEnds(run);
    ExactRun(uuid, START, Bare(run));
  }

  lemma AutomatonSettles(uuid: seq<byte>, h: History, stream: seq<byte>)
    requires Carried(uuid, h) && stream == Wire(h.e.blocks) + h.e.raw
    ensures var c := Run(FIRST, stream).0; c.current == 2 ==> Idle(c)
  {
    if h.w.isPadding {
      RunContinue(FIRST, h.e.blocks);
      assert Wire(h.e.blocks) + [] == Wire(h.e.blocks);
    } else {
      WholeStream(h.e.blocks, h.e.raw);
    }
  }

  lemma SomethingRead(uuid: seq<byte>, run: seq<Read>)
    requires OpensWithIdentifier(run)
    ensures ReadAll(uuid, FIRST_READ, run).used != []
  {
    assert Flatten(run[0].mb) != [];
  }

  lemma BareFilteringEnds(run: seq<Read>)
    requires OpensWithIdentifier(run) && FilteringEnds(run)
    ensures FilteringEnds(Bare(run))
  {
    forall i, j | 0 <= i < j < |Bare(run)| && Bare(run)[j].filtering
      ensures Bare(run)[i].filtering
    {
      assert run[j].filtering && run[i].filtering;
    }
  }

  lemma EmittedIs(s: Seed, uuid: seq<byte>, events: seq<Event>)
    requires GoodSeed(s) && forall event <- events :: Possible(event)
    ensures var h := HappenAll(s, Begin(uuid), events);
            && Carried(uuid, h)
            && (h.outer + h.rawConn != [] ==> h.outer + h.rawConn == uuid + (Wire(h.e.blocks) + h.e.raw))
            && Contents(h.e.blocks) + h.e.raw == Written(events)
  {
    BeginCarried(uuid);
    RunFraming(s, uuid, Begin(uuid), events);
    var h := HappenAll(s, Begin(uuid), events);
    assert Contents([]) + [] + Written(events) == Written(events);
    if h.e.blocks != [] {
      assert uuid + Wire(h.e.blocks) + h.e.raw == uuid + (Wire(h.e.blocks) + h.e.raw);
    } else {
      assert EmittedBytes(uuid, h.e) == [];
    }
  }

  // ---- cuts that are certainly proper ----

  /** Where the terminal block starts in the stream after the identifier. */
  function TerminalAt(blocks: seq<Block>): nat
    requires PaddingPhase(blocks)
  {
    |Wire(blocks[..|blocks| - 1])|
  }

  lemma OneBlock(blocks: seq<Block>)
    requires PaddingPhase(blocks) && |blocks| == 1
    ensures Wire(blocks) == Encode(blocks[0]) && TerminalAt(blocks) == 0
  {
    assert blocks[1..] == [] && blocks[..0] == [];
    assert Encode(blocks[0]) + [] == Encode(blocks[0]);
  }

  lemma MoreBlocks(blocks: seq<Block>)
    requires PaddingPhase(blocks) && |blocks| > 1
    ensures PaddingPhase(blocks[1..]) && blocks[0].command == COMMAND_CONTINUE && Fits(blocks[0])
    ensures Wire(blocks) == Encode(blocks[0]) + Wire(blocks[1..])
    ensures TerminalAt(blocks) == |Encode(blocks[0])| + TerminalAt(blocks[1..])
  {
    var rest := blocks[1..];
    assert blocks[..|blocks| - 1][1..] == rest[..|rest| - 1];
  }

  /** Inside the terminal block but not inside its header, some content or padding is outstanding. */
  lemma StateInLast(c: Counters, b: Block, n: nat)
    requires Fits(b) && InBlock(c) && c.command == 5 && c.current == 0
    requires n < |Encode(b)| && !(0 < n < 5)
    ensures var r := Run(c, Encode(b)[..n]).0; r.content > 0 || r.padding > 0 || r.current == 0
  {
    RunPrefix(c, b, n);
  }

  lemma StateInContinue(c: Counters, b: Block, n: nat)
    requires Fits(b) && InBlock(c) && c.command == 5 && c.current == 0 && b.command == COMMAND_CONTINUE
    requires n <= |Encode(b)|
    ensures Run(c, Encode(b)[..n]).0.current == 0
  {
    RunPrefix(c, b, n);
  }

  lemma {:induction false} StateBefore(c: Counters, blocks: seq<Block>, n: nat)
    requires PaddingPhase(blocks) && InBlock(c) && c.command == 5 && c.current == 0
    requires n < |Wire(blocks)| && !(TerminalAt(blocks) < n < TerminalAt(blocks) + 5)
    ensures var r := Run(c, Wire(blocks)[..n]).0; r.content > 0 || r.padding > 0 || r.current == 0
    decreases |blocks|
  {
    var b := blocks[0];
    if |blocks| == 1 {
      OneBlock(blocks);
      StateInLast(c, b, n);
    } else {
      MoreBlocks(blocks);
      if n <= |Encode(b)| {
        TakeFirst(Encode(b), Wire(blocks[1..]), n);
        StateInContinue(c, b, n);
      } else {
        var k := n - |Encode(b)|;
        StateBefore(After(COMMAND_CONTINUE), blocks[1..], k);
        AfterFirst(c, b, Wire(blocks[1..]), k);
        assert n == |Encode(b)| + k;
      }
    }
  }

  lemma Later(s: seq<byte>, p: nat, n: nat)
    requires p <= n <= |s|
    ensures Run(FIRST, s[..n]).0 == Run(Run(FIRST, s[..p]).0, s[p..n]).0
  {
    RunConcat(FIRST, s[..p], s[p..n]);
    JoinSlices(s, 0, p, n);
  }

  /** When the automaton, after the first `p` bytes of the stream, is past the end of the padding. */
  lemma IdleAfter(blocks: seq<Block>, raw: seq<byte>, p: nat, n: nat)
    requires PaddingPhase(blocks) && p <= n <= |Wire(blocks) + raw|
    ensures var s := Wire(blocks) + raw;
            Idle(Run(Run(FIRST, s[..p]).0, s[p..n]).0) <==> n >= |Wire(blocks)|
  {
    IdleFromTheEndOn(blocks, raw, n);
    Later(Wire(blocks) + raw, p, n);
  }

  /** The buffers of a read that reaches position `q` are quiet exactly without a late fresh start. */
  lemma QuietIff(uuid: seq<byte>, blocks: seq<Block>, raw: seq<byte>, mb: seq<seq<byte>>, p: nat, q: nat)
    requires PaddingPhase(blocks) && p <= q <= |Wire(blocks) + raw|
    requires Flatten(mb) == (Wire(blocks) + raw)[p..q]
    ensures Quiet(uuid, Run(FIRST, (Wire(blocks) + raw)[..p]).0, mb) <==> NoLateStart(uuid, mb, p, |Wire(blocks)|)
  {
    var s := Wire(blocks) + raw;
    var c := Run(FIRST, s[..p]).0;
    forall n | p <= n <= q
      ensures Idle(Run(c, s[..q][p..n]).0) <==> n >= |Wire(blocks)|
    {
      IdleAfter(blocks, raw, p, n);
      SliceOfTake(s, p, n, q);
    }
    SliceOfTake(s, p, q, q);
    QuietByPosition(uuid, c, s[..q], p, |Wire(blocks)|, mb);
  }

  /** No buffer of a read that starts at `p` comes after the padding and looks like a fresh start. */
  predicate NoLateStart(uuid: seq<byte>, mb: seq<seq<byte>>, p: nat, end: nat) {
    forall k :: 0 <= k < |mb| && p + |Flatten(mb[..k])| >= end ==> !Starts(uuid, mb[k])
  }

  /** Without a late fresh start, a read takes the reader to where the automaton is. */
  lemma QuietRead(uuid: seq<byte>, blocks: seq<Block>, raw: seq<byte>, mb: seq<seq<byte>>, p: nat, q: nat)
    requires PaddingPhase(blocks) && p <= q <= |Wire(blocks) + raw|
    requires Flatten(mb) == (Wire(blocks) + raw)[p..q]
    requires NoLateStart(uuid, mb, p, |Wire(blocks)|)
    ensures var c := Run(FIRST, (Wire(blocks) + raw)[..p]).0;
            Quiet(uuid, c, mb) && UnpadAll(uuid, c, mb).0 == Run(FIRST, (Wire(blocks) + raw)[..q]).0
  {
    var s := Wire(blocks) + raw;
    QuietIff(uuid, blocks, raw, mb, p, q);
    CutsMatter(uuid, Run(FIRST, s[..p]).0, mb);
    Later(s, p, q);
  }

  /** Inside the padding phase a clean read leaves the reader within the padding. */
  lemma StaysWithin(blocks: seq<Block>, raw: seq<byte>, q: nat, within: bool)
    requires PaddingPhase(blocks) && q < |Wire(blocks)|
    requires !(TerminalAt(blocks) < q < TerminalAt(blocks) + 5)
    ensures Judge(Run(FIRST, (Wire(blocks) + raw)[..q]).0, within) == (true, false)
  {
    assert (Wire(blocks) + raw)[..q] == Wire(blocks)[..q];
    StateBefore(FIRST, blocks, q);
  }

  /** The place of the reader in the stream. */
  ghost predicate At(r: ReaderState, s: seq<byte>, p: nat, end: nat) {
    && p <= |s| && r.c == Run(FIRST, s[..p]).0
    && (p < end ==> r.within && !r.direct)
  }

  /** What a read that starts at `p` takes from the stream. */
  lemma ReadSlice(uuid: seq<byte>, s: seq<byte>, r: ReaderState, rd: Read, p: nat)
    requires Reachable(r.c) && p <= |s| && ReadStep(uuid, r, rd).used <= s[p..]
    ensures var all := Flatten(rd.mb); var d := ReadStep(uuid, r, rd);
            && p + |all| <= p + |d.used| <= |s|
            && all == s[p..p + |all|] && d.used == s[p..p + |d.used|]
  {
    var all, d := Flatten(rd.mb), ReadStep(uuid, r, rd);
    PrefixOfSlice(s, p, |s|, d.used);
    PrefixOfSlice(s, p, p + |d.used|, all);
  }

  /** The first of some reads that take the rest of the stream, and the others. */
  lemma RestOfStream(uuid: seq<byte>, r: ReaderState, run: seq<Read>, s: seq<byte>, p: nat)
    requires Reachable(r.c) && run != [] && p <= |s| && ReadAll(uuid, r, run).used == s[p..]
    ensures var (all, d) := (Flatten(run[0].mb), ReadStep(uuid, r, run[0]));
            && d.used <= s[p..] && p + |all| <= p + |d.used| <= |s|
            && all == s[p..p + |all|] && d.used == s[p..p + |d.used|]
            && ReadAll(uuid, d.r, run[1..]).used == s[p + |d.used|..]
  {
    var d := ReadStep(uuid, r, run[0]);
    SplitSuffix(s, p, d.used, ReadAll(uuid, d.r, run[1..]).used);
    ReadSlice(uuid, s, r, run[0], p);
  }

  /** While only Continue blocks have been sent, the current command stays 0. */
  lemma {:induction false} CurrentStaysZero(c: Counters, blocks: seq<Block>, n: nat)
    requires InBlock(c) && c.command == 5 && c.current == 0 && AllContinue(blocks) && n <= |Wire(blocks)|
    ensures var r := Run(c, Wire(blocks)[..n]).0; InBlock(r) && r.current == 0
    decreases |blocks|
  {
    if blocks != [] {
      var e := Encode(blocks[0]);
      if n <= |e| {
        RunPrefix(c, blocks[0], n);
        assert Wire(blocks)[..n] == e[..n];
      } else {
        AfterFirst(c, blocks[0], Wire(blocks[1..]), n - |e|);
        CurrentStaysZero(After(COMMAND_CONTINUE), blocks[1..], n - |e|);
      }
    }
  }

  lemma {:induction false} QuietInside(uuid: seq<byte>, s: seq<byte>, c: Counters, cuts: seq<seq<byte>>)
    requires Reachable(c) && Flatten(cuts) == s
    requires forall n :: 0 <= n <= |s| ==> !Idle(Run(c, s[..n]).0)
    ensures Quiet(uuid, c, cuts)
    decreases |cuts|
  {
    if cuts != [] {
      assert s[..0] == [];
      var c1, t := Run(c, cuts[0]).0, Flatten(cuts[1..]);
      forall n | 0 <= n <= |t|
        ensures !Idle(Run(c1, t[..n]).0)
      {
        RunConcat(c, cuts[0], t[..n]);
        assert s[..|cuts[0]| + n] == cuts[0] + t[..n];
      }
      QuietInside(uuid, t, c1, cuts[1..]);
    }
  }

  lemma ContinueAfter(blocks: seq<Block>, p: nat, n: nat)
    requires AllContinue(blocks) && p <= n <= |Wire(blocks)|
    ensures var c := Run(Run(FIRST, Wire(blocks)[..p]).0, Wire(blocks)[p..n]).0; !Idle(c) && c.current == 0
  {
    CurrentStaysZero(FIRST, blocks, n);
    Later(Wire(blocks), p, n);
  }

  lemma QuietContinue(uuid: seq<byte>, blocks: seq<Block>, mb: seq<seq<byte>>, p: nat, q: nat)
    requires AllContinue(blocks) && p <= q <= |Wire(blocks)| && Flatten(mb) == Wire(blocks)[p..q]
    ensures var c := Run(FIRST, Wire(blocks)[..p]).0;
            && Quiet(uuid, c, mb)
            && UnpadAll(uuid, c, mb).0 == Run(FIRST, Wire(blocks)[..q]).0
            && UnpadAll(uuid, c, mb).0.current == 0
  {
    var s := Wire(blocks);
    var c := Run(FIRST, s[..p]).0;
    forall n | 0 <= n <= q - p
      ensures !Idle(Run(c, s[p..q][..n]).0)
    {
      ContinueAfter(blocks, p, p + n);
      PrefixOfSlice(s, p, q, s[p..q][..n]);
    }
    QuietInside(uuid, s[p..q], c, mb);
    CutsMatter(uuid, c, mb);
    ContinueAfter(blocks, p, q);
    Later(s, p, q);
  }

  lemma ContinueStep(uuid: seq<byte>, blocks: seq<Block>, r: ReaderState, rd: Read, p: nat)
    requires AllContinue(blocks) && At(r, Wire(blocks), p, |Wire(blocks)| + 1)
    requires ReadStep(uuid, r, rd).used <= Wire(blocks)[p..]
    ensures Proper(uuid, r, rd)
    ensures var d := ReadStep(uuid, r, rd); At(d.r, Wire(blocks), p + |d.used|, |Wire(blocks)| + 1)
  {
    ReadSlice(uuid, Wire(blocks), r, rd, p);
    if Flatten(rd.mb) != [] {
      QuietContinue(uuid, blocks, rd.mb, p, p + |Flatten(rd.mb)|);
      assert Judge(UnpadAll(uuid, r.c, rd.mb).0, r.within) == (true, false);
    }
  }

  /** The reader is in its place, and the reads take the rest of a stream in which the padding has not ended. */
  ghost predicate ContinueFrom(uuid: seq<byte>, blocks: seq<Block>, r: ReaderState, run: seq<Read>, p: nat) {
    && AllContinue(blocks) && At(r, Wire(blocks), p, |Wire(blocks)| + 1)
    && ReadAll(uuid, r, run).used == Wire(blocks)[p..]
  }

  lemma ContinueFirst(uuid: seq<byte>, blocks: seq<Block>, r: ReaderState, run: seq<Read>, p: nat)
    requires ContinueFrom(uuid, blocks, r, run, p) && run != []
    ensures Proper(uuid, r, run[0])
    ensures var d := ReadStep(uuid, r, run[0]); ContinueFrom(uuid, blocks, d.r, run[1..], p + |d.used|)
  {
    RestOfStream(uuid, r, run, Wire(blocks), p);
    ContinueStep(uuid, blocks, r, run[0], p);
  }

  /** As long as the padding has not ended, every cut is proper. */
  lemma {:induction false} ContinueIsProper(uuid: seq<byte>, blocks: seq<Block>, r: ReaderState, run: seq<Read>, p: nat)
    requires ContinueFrom(uuid, blocks, r, run, p)
    ensures AllProper(uuid, r, run)
    decreases |run|
  {
    if run != [] {
      var d := ReadStep(uuid, r, run[0]);
      ContinueFirst(uuid, blocks, r, run, p);
      ContinueIsProper(uuid, blocks, d.r, run[1..], p + |d.used|);
    }
  }
}
