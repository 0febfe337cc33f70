/** Which runs of reads deliver what was written, in terms of places in the stream alone. */
module VisionPlaces {
  import opened Bytes
  import opened Sequences
  import opened VisionUnpad
  import opened VisionCodec
  import opened VisionWriting
  import opened VisionReading
  import opened VisionEndToEnd

  // ---- places ----

  /** After `n` bytes of its header, nothing of a block's lengths shows yet. */
  predicate Blind(b: Block, n: nat) {
    || n == 1
    || (n == 2 && |b.content| < 256)
    || (n == 3 && b.content == [])
    || (n == 4 && b.content == [] && |b.padding| < 256)
  }

  function LastOf(blocks: seq<Block>): Block
    requires PaddingPhase(blocks)
  {
    blocks[|blocks| - 1]
  }

  /** Position `q` is inside the header of the terminal block, and its lengths do not show yet. */
  predicate EndsBlind(blocks: seq<Block>, q: nat)
    requires PaddingPhase(blocks)
  {
    TerminalAt(blocks) < q < TerminalAt(blocks) + 5 && Blind(LastOf(blocks), q - TerminalAt(blocks))
  }

  /**
   From position `p` on, no read ends blind in the header of a Direct block; none that ends blind in the header of an
   End block is followed by one without filtering; and none that is unpadded brings a late fresh start.
   */
  predicate InPlace(uuid: seq<byte>, blocks: seq<Block>, run: seq<Read>, p: nat)
    requires PaddingPhase(blocks)
    decreases |run|
  {
    run == [] ||
    (var rd, rest, end := run[0], run[1..], |Wire(blocks)|;
     var q := p + |Flatten(rd.mb)|;
     if q == p then InPlace(uuid, blocks, rest, p)
     else if !rd.filtering && (p >= end || EndsBlind(blocks, p)) then p >= end && InPlace(uuid, blocks, rest, q)
     else
       && NoLateStart(uuid, rd.mb, p, end)
       && (LastOf(blocks).command == COMMAND_END || !EndsBlind(blocks, q))
       && ((LastOf(blocks).command == COMMAND_DIRECT && q >= end) || InPlace(uuid, blocks, rest, q)))
  }

  // ---- what the reader concludes at a place ----

  lemma {:induction false} HeaderInside(blocks: seq<Block>)
    requires PaddingPhase(blocks)
    ensures TerminalAt(blocks) + 5 <= |Wire(blocks)|
    decreases |blocks|
  {
    if |blocks| == 1 {
      OneBlock(blocks);
    } else {
      MoreBlocks(blocks);
      HeaderInside(blocks[1..]);
    }
  }

  /** The counters say nothing of the block's lengths, but its command is known. */
  predicate SeesOnlyCommand(c: Counters, b: Block, n: nat) {
    c.current == b.command as int && (c.content > 0 || c.padding > 0 <==> !Blind(b, n))
  }

  lemma InHeader(c: Counters, b: Block, n: nat)
    requires Fits(b) && InBlock(c) && c.command == 5 && c.content <= 0 && c.padding <= 0 && 0 < n < 5
    ensures SeesOnlyCommand(Run(c, Encode(b)[..n]).0, b, n)
  {
    RunPrefix(c, b, n);
  }

  lemma {:induction false} InLastHeader(c: Counters, blocks: seq<Block>, n: nat)
    requires PaddingPhase(blocks) && InBlock(c) && c.command == 5 && c.content <= 0 && c.padding <= 0
    requires 0 < n < 5 && TerminalAt(blocks) + 5 <= |Wire(blocks)|
    ensures SeesOnlyCommand(Run(c, Wire(blocks)[..TerminalAt(blocks) + n]).0, LastOf(blocks), n)
    decreases |blocks|
  {
    if |blocks| == 1 {
      OneBlock(blocks);
      InHeader(c, blocks[0], n);
    } else {
      MoreBlocks(blocks);
      var k := TerminalAt(blocks[1..]) + n;
      InLastHeader(After(COMMAND_CONTINUE), blocks[1..], n);
      AfterFirst(c, blocks[0], Wire(blocks[1..]), k);
      assert Wire(blocks)[..TerminalAt(blocks) + n]
             == (Encode(blocks[0]) + Wire(blocks[1..]))[..|Encode(blocks[0])| + k];
    }
  }

  /** The reader takes the padding for over exactly past its end, or blind in the last header. */
  lemma JudgedAt(blocks: seq<Block>, raw: seq<byte>, q: nat, within: bool)
    requires PaddingPhase(blocks) && q <= |Wire(blocks) + raw|
    ensures Judge(Run(FIRST, (Wire(blocks) + raw)[..q]).0, within)
         == if q < |Wire(blocks)| && !EndsBlind(blocks, q) then (true, false)
            else (false, LastOf(blocks).command == COMMAND_DIRECT)
  {
    var s := Wire(blocks) + raw;
    var h := TerminalAt(blocks);
    HeaderInside(blocks);
    if h < q < h + 5 {
      InLastHeader(FIRST, blocks, q - h);
      assert s[..q] == Wire(blocks)[..q];
    } else if q < |Wire(blocks)| {
      StaysWithin(blocks, raw, q, within);
    } else {
      PastTheEnd(blocks, raw, q);
    }
  }

  lemma PastTheEnd(blocks: seq<Block>, raw: seq<byte>, q: nat)
    requires PaddingPhase(blocks) && |Wire(blocks)| <= q <= |Wire(blocks) + raw|
    ensures Run(FIRST, (Wire(blocks) + raw)[..q]).0 == After(LastOf(blocks).command)
  {
    var w, m := Wire(blocks), q - |Wire(blocks)|;
    assert (w + raw)[..q] == w + raw[..m];
    RunWire(FIRST, blocks);
    RunConcat(FIRST, w, raw[..m]);
    RunIdle(Run(FIRST, w).0, raw[..m]);
  }

  // ---- the reader at a place ----

  /** The reader has taken in the stream up to `p`, and has not switched to raw copy. */
  ghost predicate Reads(r: ReaderState, blocks: seq<Block>, raw: seq<byte>, p: nat)
    requires PaddingPhase(blocks)
  {
    && p <= |Wire(blocks) + raw| && r.c == Run(FIRST, (Wire(blocks) + raw)[..p]).0 && !r.direct
    && (r.within <==> p < |Wire(blocks)| && !EndsBlind(blocks, p))
  }

  /** Once it has switched after the padding, everything is handled properly. */
  lemma {:induction false} RawIsProper(uuid: seq<byte>, r: ReaderState, run: seq<Read>)
    requires r.direct && Idle(r.c) && Reachable(r.c)
    ensures AllProper(uuid, r, run)
    decreases |run|
  {
    if run != [] {
      RawIsProper(uuid, r, run[1..]);
    }
  }

  /** If it has switched before, the next bytes are not. */
  lemma {:induction false} RawIsTooEarly(uuid: seq<byte>, r: ReaderState, run: seq<Read>)
    requires r.direct && !Idle(r.c) && Reachable(r.c) && ReadAll(uuid, r, run).used != []
    ensures !AllProper(uuid, r, run)
    decreases |run|
  {
    if Flatten(run[0].mb) == [] {
      RawIsTooEarly(uuid, r, run[1..]);
    }
  }

  /** The reader is at `p`, and what it reads is the rest of the stream. */
  ghost predicate Takes(uuid: seq<byte>, blocks: seq<Block>, raw: seq<byte>, r: ReaderState, run: seq<Read>, p: nat) {
    PaddingPhase(blocks) && Reads(r, blocks, raw, p) && ReadAll(uuid, r, run).used == (Wire(blocks) + raw)[p..]
  }

  /** The reader is at `p`, and the buffers of a read are what comes next. */
  ghost predicate Next(blocks: seq<Block>, raw: seq<byte>, r: ReaderState, rd: Read, p: nat) {
    var q := p + |Flatten(rd.mb)|;
    PaddingPhase(blocks) && Reads(r, blocks, raw, p)
    && q <= |Wire(blocks) + raw| && Flatten(rd.mb) == (Wire(blocks) + raw)[p..q]
  }

  lemma FirstIsNext(uuid: seq<byte>, blocks: seq<Block>, raw: seq<byte>, r: ReaderState, run: seq<Read>, p: nat)
    requires Takes(uuid, blocks, raw, r, run, p) && run != []
    ensures Next(blocks, raw, r, run[0], p)
    ensures var d := ReadStep(uuid, r, run[0]); var q := p + |d.used|;
            q <= |Wire(blocks) + raw| && ReadAll(uuid, d.r, run[1..]).used == (Wire(blocks) + raw)[q..]
  {
    RestOfStream(uuid, r, run, Wire(blocks) + raw, p);
  }

  /** A read that passes its bytes unchanged, the padding being taken for over. */
  lemma PassedOn(uuid: seq<byte>, blocks: seq<Block>, raw: seq<byte>, r: ReaderState, rd: Read, p: nat)
    requires Next(blocks, raw, r, rd, p) && !r.within && !rd.filtering && Flatten(rd.mb) != []
    ensures Proper(uuid, r, rd) <==> p >= |Wire(blocks)|
    ensures ReadStep(uuid, r, rd).r == r && ReadStep(uuid, r, rd).used == Flatten(rd.mb)
    ensures p >= |Wire(blocks)| ==> Reads(r, blocks, raw, p + |Flatten(rd.mb)|)
  {
    IdleFromTheEndOn(blocks, raw, p);
    if p >= |Wire(blocks)| {
      PastTheEnd(blocks, raw, p);
      PastTheEnd(blocks, raw, p + |Flatten(rd.mb)|);
    }
  }

  /** The reader switches to raw copy after a read that ends at `q`. */
  predicate SwitchesAt(blocks: seq<Block>, q: nat)
    requires PaddingPhase(blocks)
  {
    LastOf(blocks).command == COMMAND_DIRECT && (q >= |Wire(blocks)| || EndsBlind(blocks, q))
  }

  /** What a read that is unpadded, up to `q`, makes of the counters. */
  lemma UnpaddedCounters(uuid: seq<byte>, blocks: seq<Block>, raw: seq<byte>, r: ReaderState, rd: Read, p: nat)
    requires Next(blocks, raw, r, rd, p) && NoLateStart(uuid, rd.mb, p, |Wire(blocks)|)
    ensures var (c, q) := (UnpadAll(uuid, r.c, rd.mb).0, p + |Flatten(rd.mb)|);
            && Quiet(uuid, r.c, rd.mb) && c == Run(FIRST, (Wire(blocks) + raw)[..q]).0
            && (Idle(c) <==> q >= |Wire(blocks)|)
            && Judge(c, r.within) == (q < |Wire(blocks)| && !EndsBlind(blocks, q), SwitchesAt(blocks, q))
  {
    var q := p + |Flatten(rd.mb)|;
    QuietRead(uuid, blocks, raw, rd.mb, p, q);
    JudgedAt(blocks, raw, q, r.within);
    IdleFromTheEndOn(blocks, raw, q);
  }

  /** A read that is unpadded, up to `q`. */
  lemma UnpaddedTo(uuid: seq<byte>, blocks: seq<Block>, raw: seq<byte>, r: ReaderState, rd: Read, p: nat)
    requires Next(blocks, raw, r, rd, p) && (r.within || rd.filtering) && Flatten(rd.mb) != []
    requires NoLateStart(uuid, rd.mb, p, |Wire(blocks)|)
    ensures var (d, q) := (ReadStep(uuid, r, rd), p + |Flatten(rd.mb)|);
            if SwitchesAt(blocks, q)
            then d.r.direct && (Idle(d.r.c) <==> q >= |Wire(blocks)|)
                 && (Proper(uuid, r, rd) <==> Idle(d.r.c) || rd.input + rd.rawInput == [])
                 && d.used == Flatten(rd.mb) + (rd.input + rd.rawInput)
            else Proper(uuid, r, rd) && Reads(d.r, blocks, raw, q) && d.used == Flatten(rd.mb)
  {
    UnpaddedCounters(uuid, blocks, raw, r, rd, p);
    assert Flatten(rd.mb) + [] == Flatten(rd.mb);
  }

  // -- the cases of one read

  lemma NothingRead(uuid: seq<byte>, blocks: seq<Block>, raw: seq<byte>, r: ReaderState, run: seq<Read>, p: nat)
    requires Takes(uuid, blocks, raw, r, run, p) && run != [] && Flatten(run[0].mb) == []
    ensures Proper(uuid, r, run[0]) && ReadStep(uuid, r, run[0]).r == r
    ensures Takes(uuid, blocks, raw, r, run[1..], p)
  {
    FirstIsNext(uuid, blocks, raw, r, run, p);
  }

  lemma ReadPassedOn(uuid: seq<byte>, blocks: seq<Block>, raw: seq<byte>, r: ReaderState, run: seq<Read>, p: nat)
    requires Takes(uuid, blocks, raw, r, run, p) && run != [] && Flatten(run[0].mb) != []
    requires !r.within && !run[0].filtering
    ensures Proper(uuid, r, run[0]) <==> p >= |Wire(blocks)|
    ensures ReadStep(uuid, r, run[0]).r == r
    ensures p >= |Wire(blocks)| ==> Takes(uuid, blocks, raw, r, run[1..], p + |Flatten(run[0].mb)|)
  {
    FirstIsNext(uuid, blocks, raw, r, run, p);
    PassedOn(uuid, blocks, raw, r, run[0], p);
  }

  /** A read that stops short of the end of the stream leaves something to come. */
  lemma MoreToCome(uuid: seq<byte>, blocks: seq<Block>, raw: seq<byte>, r: ReaderState, run: seq<Read>, p: nat)
    requires Takes(uuid, blocks, raw, r, run, p) && run != []
    requires p + |ReadStep(uuid, r, run[0]).used| < |Wire(blocks)|
    ensures ReadAll(uuid, ReadStep(uuid, r, run[0]).r, run[1..]).used != []
  {
    FirstIsNext(uuid, blocks, raw, r, run, p);
  }

  /** What is left of the stream when a Direct header has ended a read blind is still to come. */
  lemma ReadEndsBlind(uuid: seq<byte>, blocks: seq<Block>, raw: seq<byte>, r: ReaderState, run: seq<Read>, p: nat)
    requires Takes(uuid, blocks, raw, r, run, p) && run != [] && Flatten(run[0].mb) != []
    requires (r.within || run[0].filtering) && NoLateStart(uuid, run[0].mb, p, |Wire(blocks)|)
    requires LastOf(blocks).command == COMMAND_DIRECT && EndsBlind(blocks, p + |Flatten(run[0].mb)|)
    ensures Proper(uuid, r, run[0]) ==> !AllProper(uuid, ReadStep(uuid, r, run[0]).r, run[1..])
  {
    FirstIsNext(uuid, blocks, raw, r, run, p);
    BlindSwitch(uuid, blocks, raw, r, run[0], p);
    HeaderInside(blocks);
    if run[0].input + run[0].rawInput == [] {
      MoreToCome(uuid, blocks, raw, r, run, p);
      RawIsTooEarly(uuid, ReadStep(uuid, r, run[0]).r, run[1..]);
    }
  }

  lemma BlindSwitch(uuid: seq<byte>, blocks: seq<Block>, raw: seq<byte>, r: ReaderState, rd: Read, p: nat)
    requires Next(blocks, raw, r, rd, p) && (r.within || rd.filtering) && Flatten(rd.mb) != []
    requires NoLateStart(uuid, rd.mb, p, |Wire(blocks)|)
    requires LastOf(blocks).command == COMMAND_DIRECT && EndsBlind(blocks, p + |Flatten(rd.mb)|)
    ensures var (d, left) := (ReadStep(uuid, r, rd), rd.input + rd.rawInput);
            && d.r.direct && !Idle(d.r.c) && (Proper(uuid, r, rd) ==> left == [])
            && (left == [] ==> |d.used| == |Flatten(rd.mb)|)
  {
    HeaderInside(blocks);
    UnpaddedTo(uuid, blocks, raw, r, rd, p);
  }

  lemma ReadSwitches(uuid: seq<byte>, blocks: seq<Block>, raw: seq<byte>, r: ReaderState, run: seq<Read>, p: nat)
    requires Takes(uuid, blocks, raw, r, run, p) && run != [] && Flatten(run[0].mb) != []
    requires (r.within || run[0].filtering) && NoLateStart(uuid, run[0].mb, p, |Wire(blocks)|)
    requires LastOf(blocks).command == COMMAND_DIRECT && p + |Flatten(run[0].mb)| >= |Wire(blocks)|
    ensures Proper(uuid, r, run[0]) && AllProper(uuid, ReadStep(uuid, r, run[0]).r, run[1..])
  {
    FirstIsNext(uuid, blocks, raw, r, run, p);
    UnpaddedTo(uuid, blocks, raw, r, run[0], p);
    RawIsProper(uuid, ReadStep(uuid, r, run[0]).r, run[1..]);
  }

  lemma ReadGoesOn(uuid: seq<byte>, blocks: seq<Block>, raw: seq<byte>, r: ReaderState, run: seq<Read>, p: nat)
    requires Takes(uuid, blocks, raw, r, run, p) && run != [] && Flatten(run[0].mb) != []
    requires (r.within || run[0].filtering) && NoLateStart(uuid, run[0].mb, p, |Wire(blocks)|)
    requires !SwitchesAt(blocks, p + |Flatten(run[0].mb)|)
    ensures Proper(uuid, r, run[0])
    ensures Takes(uuid, blocks, raw, ReadStep(uuid, r, run[0]).r, run[1..], p + |Flatten(run[0].mb)|)
  {
    FirstIsNext(uuid, blocks, raw, r, run, p);
    UnpaddedTo(uuid, blocks, raw, r, run[0], p);
  }

  lemma AllProperFirst(uuid: seq<byte>, r: ReaderState, run: seq<Read>)
    requires Reachable(r.c) && run != []
    ensures AllProper(uuid, r, run)
            <==> Proper(uuid, r, run[0]) && AllProper(uuid, ReadStep(uuid, r, run[0]).r, run[1..])
  {
  }

  lemma ReadStartsAfresh(uuid: seq<byte>, blocks: seq<Block>, raw: seq<byte>, r: ReaderState, run: seq<Read>, p: nat)
    requires Takes(uuid, blocks, raw, r, run, p) && run != [] && Flatten(run[0].mb) != []
    requires (r.within || run[0].filtering) && !NoLateStart(uuid, run[0].mb, p, |Wire(blocks)|)
    ensures !Proper(uuid, r, run[0])
  {
    FirstIsNext(uuid, blocks, raw, r, run, p);
    QuietIff(uuid, blocks, raw, run[0].mb, p, p + |Flatten(run[0].mb)|);
  }

  /** The reads of a stream are proper exactly if they are in place. */
  lemma {:induction false} ProperIffInPlace(uuid: seq<byte>, blocks: seq<Block>, raw: seq<byte>, r: ReaderState,
                                            run: seq<Read>, p: nat)
    requires Takes(uuid, blocks, raw, r, run, p)
    ensures AllProper(uuid, r, run) <==> InPlace(uuid, blocks, run, p)
    decreases |run|
  {
    if run != [] {
      HeaderInside(blocks);
      AllProperFirst(uuid, r, run);
      var rd, q := run[0], p + |Flatten(run[0].mb)|;
      if q == p {
        NothingRead(uuid, blocks, raw, r, run, p);
        ProperIffInPlace(uuid, blocks, raw, r, run[1..], p);
      } else if !rd.filtering && !r.within {
        ReadPassedOn(uuid, blocks, raw, r, run, p);
        if p >= |Wire(blocks)| {
          ProperIffInPlace(uuid, blocks, raw, r, run[1..], q);
        }
      } else if !NoLateStart(uuid, rd.mb, p, |Wire(blocks)|) {
        ReadStartsAfresh(uuid, blocks, raw, r, run, p);
      } else if !SwitchesAt(blocks, q) {
        ReadGoesOn(uuid, blocks, raw, r, run, p);
        ProperIffInPlace(uuid, blocks, raw, ReadStep(uuid, r, rd).r, run[1..], q);
      } else if q >= |Wire(blocks)| {
        ReadSwitches(uuid, blocks, raw, r, run, p);
      } else {
        ReadEndsBlind(uuid, blocks, raw, r, run, p);
      }
    }
  }

  // ---- end to end ----

  /**
   End-to-end transparency by places: what is delivered is what was written if and only if, the padding having ended,
   the reads of the stream are in place; while it has not, every run delivers what was written.
   */
  lemma TransparencyByPlaces(s: Seed, uuid: seq<byte>, events: seq<Event>, run: seq<Read>)
    requires |uuid| == 16 && GoodSeed(s) && forall event <- events :: Possible(event)
    requires OpensWithIdentifier(run) && FilteringEnds(run)
    requires var h := HappenAll(s, Begin(uuid), events);
             ReadAll(uuid, FIRST_READ, run).used == h.outer + h.rawConn
    ensures var blocks := HappenAll(s, Begin(uuid), events).e.blocks;
            ReadAll(uuid, FIRST_READ, run).out == Written(events)
            <==> (PaddingPhase(blocks) ==> InPlace(uuid, blocks, Bare(run), 0))
  {
    var h := HappenAll(s, Begin(uuid), events);
    EmittedIs(s, uuid, events);
    SomethingRead(uuid, run);
    var w := Wire(h.e.blocks);
    BareRun(uuid, run, w + h.e.raw);
    assert (w + h.e.raw)[..0] == [] && (w + h.e.raw)[0..] == w + h.e.raw;
    if h.w.isPadding {
      assert w + [] == w;
      ContinueIsProper(uuid, h.e.blocks, START, Bare(run), 0);
      ContinueIsNoPhase(h.e.blocks);
    } else {
      AtTheStart(h.e.blocks, h.e.raw);
      ProperIffInPlace(uuid, h.e.blocks, h.e.raw, START, Bare(run), 0);
    }
    Transparency(s, uuid, events, run);
  }

  /** A read that starts at `p` does not end inside the header, and brings no late fresh start. */
  predicate CleanCut(uuid: seq<byte>, mb: seq<seq<byte>>, p: nat, header: nat, end: nat) {
    !(header < p + |Flatten(mb)| < header + 5) && NoLateStart(uuid, mb, p, end)
  }

  /**
   From position `p` on, no read ends inside the five header bytes of the terminal block, and no buffer that arrives
   after that block looks like a fresh start.
   */
  predicate CleanRun(uuid: seq<byte>, run: seq<Read>, p: nat, header: nat, end: nat)
    decreases |run|
  {
    run == [] ||
    (CleanCut(uuid, run[0].mb, p, header, end) && CleanRun(uuid, run[1..], p + |Flatten(run[0].mb)|, header, end))
  }

  lemma {:induction false} CleanIsInPlace(uuid: seq<byte>, blocks: seq<Block>, run: seq<Read>, p: nat)
    requires PaddingPhase(blocks) && !EndsBlind(blocks, p)
    requires CleanRun(uuid, run, p, TerminalAt(blocks), |Wire(blocks)|)
    ensures InPlace(uuid, blocks, run, p)
    decreases |run|
  {
    if run != [] {
      CleanIsInPlace(uuid, blocks, run[1..], p + |Flatten(run[0].mb)|);
    }
  }

  /** Clean reads are proper. */
  lemma CleanIsProper(uuid: seq<byte>, blocks: seq<Block>, raw: seq<byte>, r: ReaderState, run: seq<Read>, p: nat)
    requires Takes(uuid, blocks, raw, r, run, p) && !EndsBlind(blocks, p)
    requires CleanRun(uuid, run, p, TerminalAt(blocks), |Wire(blocks)|)
    ensures AllProper(uuid, r, run)
  {
    CleanIsInPlace(uuid, blocks, run, p);
    ProperIffInPlace(uuid, blocks, raw, r, run, p);
  }

  /**
   A simple premise: if no read ends inside the header of the terminal block and nothing after it looks like a fresh
   start, what is delivered is what was written.
   */
  lemma CleanTransparency(s: Seed, uuid: seq<byte>, events: seq<Event>, run: seq<Read>)
    requires |uuid| == 16 && GoodSeed(s) && forall event <- events :: Possible(event)
    requires OpensWithIdentifier(run) && FilteringEnds(run)
    requires var h := HappenAll(s, Begin(uuid), events);
             ReadAll(uuid, FIRST_READ, run).used == h.outer + h.rawConn
    requires var blocks := HappenAll(s, Begin(uuid), events).e.blocks;
             PaddingPhase(blocks) ==> CleanRun(uuid, Bare(run), 0, TerminalAt(blocks), |Wire(blocks)|)
    ensures ReadAll(uuid, FIRST_READ, run).out == Written(events)
  {
    var blocks := HappenAll(s, Begin(uuid), events).e.blocks;
    TransparencyByPlaces(s, uuid, events, run);
    if PaddingPhase(blocks) {
      CleanIsInPlace(uuid, blocks, Bare(run), 0);
    }
  }

  lemma ContinueIsNoPhase(blocks: seq<Block>)
    requires AllContinue(blocks)
    ensures !PaddingPhase(blocks)
  {
    if blocks != [] {
      assert blocks[|blocks| - 1] in blocks;
    }
  }

  lemma AtTheStart(blocks: seq<Block>, raw: seq<byte>)
    requires PaddingPhase(blocks)
    ensures Reads(START, blocks, raw, 0)
  {
    assert (Wire(blocks) + raw)[..0] == [];
    assert |Wire(blocks)| >= |Encode(blocks[0])| by { assert blocks[0] in blocks; }
  }

  /** A first read that ends blind in the header of a Direct block makes the reader switch early and lose contents. */
  lemma HeaderCutLoses(uuid: seq<byte>, blocks: seq<Block>, raw: seq<byte>, run: seq<Read>)
    requires |uuid| == 16 && PaddingPhase(blocks) && LastOf(blocks).command == COMMAND_DIRECT
    requires OpensWithIdentifier(run) && FilteringEnds(run)
    requires EndsBlind(blocks, |Flatten(Bare(run)[0].mb)|)
    requires ReadAll(uuid, FIRST_READ, run).used == uuid + (Wire(blocks) + raw)
    ensures ReadAll(uuid, FIRST_READ, run).out != Contents(blocks) + raw
  {
    var stream := Wire(blocks) + raw;
    BareRun(uuid, run, stream);
    assert stream[0..] == stream;
    AtTheStart(blocks, raw);
    ProperIffInPlace(uuid, blocks, raw, START, Bare(run), 0);
    ExactFromStart(uuid, run, stream);
    WholeStream(blocks, raw);
  }

  lemma FlattenOne(b: seq<byte>)
    ensures Flatten([b]) == b
  {
    assert [b][1..] == [] && b + [] == b;
  }

  lemma WireTwo(first: Block, last: Block)
    requires Fits(first) && Fits(last)
    ensures Wire([first]) == Encode(first) && Wire([first, last]) == Encode(first) + Encode(last)
  {
    assert [first][1..] == [] && Encode(first) + [] == Encode(first);
    assert [last][1..] == [] && Encode(last) + [] == Encode(last);
    assert [first, last][1..] == [last];
  }

  lemma TwoReads(uuid: seq<byte>, run: seq<Read>)
    requires |run| == 2 && forall rd <- run :: rd.input + rd.rawInput == []
    ensures ReadAll(uuid, FIRST_READ, run).used == Flatten(run[0].mb) + Flatten(run[1].mb)
  {
    var d := ReadStep(uuid, FIRST_READ, run[0]);
    assert run[1] in run && run[1..] == [run[1]] && run[1..][1..] == [];
    assert Flatten(run[0].mb) + [] == Flatten(run[0].mb) && Flatten(run[1].mb) + [] == Flatten(run[1].mb);
    assert ReadAll(uuid, d.r, run[1..]).used == Flatten(run[1].mb);
  }

  /** A run in which the first read ends after the command byte of a Direct block, and the next brings the rest. */
  lemma CutRun(uuid: seq<byte>, first: Block, last: Block) returns (run: seq<Read>)
    requires |uuid| == 16 && PaddingPhase([first, last])
    ensures OpensWithIdentifier(run) && FilteringEnds(run)
    ensures |Flatten(Bare(run)[0].mb)| == |Encode(first)| + 1
    ensures ReadAll(uuid, FIRST_READ, run).used == uuid + Wire([first, last])
  {
    assert [first, last][0] == first && [first, last][1] == last;
    var f, e := Encode(first), Encode(last);
    var one, two := uuid + f + e[..1], e[1..];
    run := [Read([one], [], [], true), Read([two], [], [], true)];
    FlattenOne(one);
    FlattenOne(two);
    FlattenOne(one[16..]);
    TwoReads(uuid, run);
    WireTwo(first, last);
    Glue(uuid, f, e);
    assert Strip([one]) == [one[16..]];
  }

  lemma Glue(u: seq<byte>, f: seq<byte>, e: seq<byte>)
    requires e != []
    ensures (u + f + e[..1]) + e[1..] == u + (f + e)
  {
    TakeDrop(e, 1);
  }

  /** Such a run, of a Direct block after a Continue block. */
  lemma HeaderCutHappens(uuid: seq<byte>) returns (blocks: seq<Block>, run: seq<Read>)
    requires |uuid| == 16
    ensures PaddingPhase(blocks) && LastOf(blocks).command == COMMAND_DIRECT
    ensures OpensWithIdentifier(run) && FilteringEnds(run)
    ensures ReadAll(uuid, FIRST_READ, run).used == uuid + Wire(blocks)
    ensures ReadAll(uuid, FIRST_READ, run).out != Contents(blocks)
  {
    var first, last := Block(COMMAND_CONTINUE, [1], []), Block(COMMAND_DIRECT, [7], []);
    blocks := [first, last];
    run := CutRun(uuid, first, last);
    WireTwo(first, last);
    assert blocks[..1] == [first];
    assert Wire(blocks) + [] == Wire(blocks) && Contents(blocks) + [] == Contents(blocks);
    HeaderCutLoses(uuid, blocks, [], run);
  }
}
