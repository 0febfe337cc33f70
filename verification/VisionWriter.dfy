/** The writing half of the Vision padding protocol: `XtlsPadding` and `VisionWriter.WriteMultiBuffer`. */
module VisionWriting {
  import opened Bytes
  import opened Sequences
  import opened VisionUnpad
  import opened VisionCodec
  import opened VisionReshape
  import opened TlsFilter
  import TlsRecords

  /** The four numbers that shape the padding lengths. */
  datatype Seed = Seed(longBelow: nat, longRange: nat, longBase: nat, shortRange: nat)

  const DEFAULT_SEED := Seed(900, 500, 900, 256)

  /** Random draws need a positive range, and the sums stay inside a signed 32-bit integer. */
  predicate Drawable(s: Seed) {
    s.longRange > 0 && s.shortRange > 0
    && s.longBelow < 0x8000_0000 && s.shortRange <= 0x8000_0000 && s.longBase + s.longRange <= 0x8000_0000
  }

  /** A random number below `range`; which one, `draw` decides. */
  function Below(range: nat, draw: nat): nat
    requires range > 0
  {
    if draw < range then draw else range - 1
  }

  /** The length of the padding for one random draw. */
  function PaddingLength(s: Seed, contentLen: nat, long: bool, draw: nat): int
    requires Drawable(s)
  {
    var l := if contentLen < s.longBelow && long then Below(s.longRange, draw) + s.longBase - contentLen
             else Below(s.shortRange, draw);
    if l > SIZE - OVERHEAD - contentLen then SIZE - OVERHEAD - contentLen else l
  }

  predicate NeverNegative(s: Seed)
    requires Drawable(s)
  {
    s.longBelow <= s.longBase + 1 || SIZE - OVERHEAD <= s.longBase
  }

  /** Padding lengths are never negative, for any content that fits and any draw, exactly for these seeds. */
  lemma PaddingNonNegative(s: Seed)
    requires Drawable(s)
    ensures NeverNegative(s) <==>
            forall n: nat, long, draw: nat :: n <= SIZE - OVERHEAD ==> PaddingLength(s, n, long, draw) >= 0
  {
    if !NeverNegative(s) {
      var n := Min(s.longBelow - 1, SIZE - OVERHEAD);
      assert PaddingLength(s, n, true, 0) < 0;
    }
  }

  /** The seeds under which every block can be padded. */
  predicate GoodSeed(s: Seed) {
    Drawable(s) && NeverNegative(s)
  }

  /** The default seed is one of them, and every block it leads to fits a buffer and its two-byte fields. */
  lemma DefaultSeedIsGood()
    ensures GoodSeed(DEFAULT_SEED)
    ensures forall n: nat, long, draw: nat | n <= SIZE - OVERHEAD ::
              0 <= PaddingLength(DEFAULT_SEED, n, long, draw) < 0x10000 && n < 0x10000
              && OVERHEAD + n + PaddingLength(DEFAULT_SEED, n, long, draw) <= SIZE
  {
    PaddingNonNegative(DEFAULT_SEED);
  }

  /**
   What the long padding is for: whatever a content of fewer than 900 bytes, its block is made to hold 900 to 1399
   bytes, and any of these numbers may come. All other padding is 0 to 255 bytes, as far as the buffer reaches.
   */
  lemma PaddingHidesLength(n: nat, long: bool, total: nat)
    requires n <= SIZE - OVERHEAD
    ensures (exists draw: nat :: n + PaddingLength(DEFAULT_SEED, n, long, draw) == total)
            <==> if n < 900 && long then 900 <= total < 1400 else n <= total < n + 256 && total <= SIZE - OVERHEAD
  {
    var least := if n < 900 && long then 900 else n;
    if least <= total && (n + PaddingLength(DEFAULT_SEED, n, long, total - least) == total) {
      assert exists draw: nat :: n + PaddingLength(DEFAULT_SEED, n, long, draw) == total;
    }
  }

  /** A seed that is too short falls back to the default. */
  function SeedFrom(testseed: seq<nat>): Seed {
    if |testseed| < 4 then DEFAULT_SEED else Seed(testseed[0], testseed[1], testseed[2], testseed[3])
  }

  function Draw(draws: seq<nat>, i: nat): nat {
    if i < |draws| then draws[i] else 0
  }

  /** The padding block around some content. It and the identifier fit a regular buffer. */
  function BlockOf(s: Seed, command: byte, content: seq<byte>, long: bool, draw: nat): (b: Block)
    requires GoodSeed(s) && |content| <= SIZE - OVERHEAD
    ensures Fits(b) && b.command == command && b.content == content
    ensures OVERHEAD + |b.content| + |b.padding| <= SIZE
  {
    PaddingNonNegative(s);
    Block(command, content, Zeros(PaddingLength(s, |content|, long, draw)))
  }

  // ---- what one call decides ----

  /** The outcome of the padding loop: blocks, then unpadded bytes, and the flags it leaves. */
  datatype Outcome = Outcome(blocks: seq<Block>, raw: seq<byte>, isPadding: bool, direct: bool)

  predicate StartsApplicationData(b: seq<byte>) {
    |b| >= 6 && TlsRecords.APPLICATION_DATA_START == b[..3]
  }

  function LastCommand(f: Filter): byte {
    if f.enableXtls then COMMAND_DIRECT else COMMAND_END
  }

  /** What is decided for one buffer, and what it leaves for the next one. */
  datatype Decision = Decision(command: byte, long: bool, endsPadding: bool, direct: bool, nextLong: bool, stop: bool)

  function Decide(f: Filter, b: seq<byte>, complete: bool, last: bool, isPadding: bool, long: bool): Decision {
    if f.isTLS && StartsApplicationData(b) && complete then
      Decision(if last then LastCommand(f) else COMMAND_CONTINUE, true, true, f.enableXtls, false, false)
    else if !f.isTLS12orAbove && f.packets <= 1 then
      Decision(COMMAND_END, long, true, false, long, true)
    else
      Decision(if last && !isPadding then LastCommand(f) else COMMAND_CONTINUE, long, false, false, long, false)
  }

  /** The padding loop from buffer `i` on; `blocks` are the blocks framed so far. */
  function PadLoop(f: Filter, s: Seed, complete: bool, draws: seq<nat>, bs: seq<seq<byte>>, i: nat,
                   blocks: seq<Block>, isPadding: bool, direct: bool, long: bool): (o: Outcome)
    requires GoodSeed(s) && i <= |bs| && forall b <- bs :: |b| <= SIZE - OVERHEAD
    requires forall b <- blocks :: Fits(b)
    ensures forall b <- o.blocks :: Fits(b)
    decreases |bs| - i
  {
    if i == |bs| then Outcome(blocks, [], isPadding, direct)
    else
      var d := Decide(f, bs[i], complete, i == |bs| - 1, isPadding, long);
      var block := BlockOf(s, d.command, bs[i], d.long, Draw(draws, i));
      if d.stop then
        Outcome(blocks + [block], Flatten(bs[i + 1..]), false, direct)
      else
        PadLoop(f, s, complete, draws, bs, i + 1, blocks + [block],
                isPadding && !d.endsPadding, direct || d.direct, d.nextLong)
  }

  /** The padding loop, from buffer `i` on, comes to `goal`. */
  ghost predicate Leads(goal: Outcome, f: Filter, s: Seed, complete: bool, draws: seq<nat>, bs: seq<seq<byte>>, i: nat,
                        blocks: seq<Block>, isPadding: bool, direct: bool, long: bool)
    requires GoodSeed(s) && forall b <- bs :: |b| <= SIZE - OVERHEAD
  {
    && i <= |bs| && (forall b <- blocks :: Fits(b))
    && goal == PadLoop(f, s, complete, draws, bs, i, blocks, isPadding, direct, long)
  }

  /** The padding loop, one turn on. */
  lemma LeadsNext(goal: Outcome, f: Filter, s: Seed, complete: bool, draws: seq<nat>, bs: seq<seq<byte>>, i: nat,
                  blocks: seq<Block>, isPadding: bool, direct: bool, long: bool, d: Decision, block: Block)
    requires GoodSeed(s) && i < |bs| && forall b <- bs :: |b| <= SIZE - OVERHEAD
    requires Leads(goal, f, s, complete, draws, bs, i, blocks, isPadding, direct, long)
    requires d == Decide(f, bs[i], complete, i == |bs| - 1, isPadding, long)
    requires block == BlockOf(s, d.command, bs[i], d.long, Draw(draws, i))
    ensures var (more, p, r) := (blocks + [block], isPadding && !d.endsPadding, direct || d.direct);
            if d.stop then goal == Outcome(more, Flatten(bs[i + 1..]), p, r)
            else Leads(goal, f, s, complete, draws, bs, i + 1, more, p, r, d.nextLong)
  {
  }

  lemma LeadsEnd(goal: Outcome, f: Filter, s: Seed, complete: bool, draws: seq<nat>, bs: seq<seq<byte>>,
                 blocks: seq<Block>, isPadding: bool, direct: bool, long: bool)
    requires GoodSeed(s) && forall b <- bs :: |b| <= SIZE - OVERHEAD
    requires Leads(goal, f, s, complete, draws, bs, |bs|, blocks, isPadding, direct, long)
    ensures goal == Outcome(blocks, [], isPadding, direct) && Flatten(bs[|bs|..]) == []
  {
  }

  predicate AllContinue(blocks: seq<Block>) {
    forall b <- blocks :: Fits(b) && b.command == COMMAND_CONTINUE
  }

  predicate FitBuffers(blocks: seq<Block>) {
    forall b <- blocks :: OVERHEAD + |b.content| + |b.padding| <= SIZE
  }

  /** What the padding loop guarantees about its outcome. */
  ghost predicate GoodOutcome(bs: seq<seq<byte>>, o: Outcome) {
    && FitBuffers(o.blocks)
    && Contents(o.blocks) + o.raw == Flatten(bs)
    && (o.isPadding ==> AllContinue(o.blocks) && o.raw == [] && !o.direct)
    && (!o.isPadding ==>
          && PaddingPhase(o.blocks)
          && (o.direct <==> o.blocks[|o.blocks| - 1].command == COMMAND_DIRECT)
          && (o.direct ==> o.raw == []))
  }

  lemma {:induction false} ContentsSnoc(blocks: seq<Block>, b: Block)
    ensures Contents(blocks + [b]) == Contents(blocks) + b.content
  {
    if blocks == [] {
      assert [] + [b] == [b];
      assert [b][1..] == [];
    } else {
      ContentsSnoc(blocks[1..], b);
      assert (blocks + [b])[1..] == blocks[1..] + [b];
    }
  }

  /** Framing buffer `i` keeps the contents in step with the buffers consumed. */
  lemma FrameKeepsContents(bs: seq<seq<byte>>, i: nat, blocks: seq<Block>, b: Block)
    requires i < |bs| && b.content == bs[i] && Contents(blocks) == Flatten(bs[..i])
    ensures Contents(blocks + [b]) == Flatten(bs[..i + 1])
    ensures Contents(blocks + [b]) + Flatten(bs[i + 1..]) == Flatten(bs)
  {
    ContentsSnoc(blocks, b);
    FlattenSnoc(bs[..i], bs[i]);
    assert bs[..i + 1] == bs[..i] + [bs[i]];
    FlattenAppend(bs[..i + 1], bs[i + 1..]);
    assert bs == bs[..i + 1] + bs[i + 1..];
  }

  /** The outcome of a call whose last framed block is `b`. */
  lemma LastGood(bs: seq<seq<byte>>, blocks: seq<Block>, b: Block, raw: seq<byte>, isPadding: bool, direct: bool)
    requires AllContinue(blocks) && FitBuffers(blocks + [b]) && Fits(b)
    requires Contents(blocks + [b]) + raw == Flatten(bs)
    requires isPadding ==> b.command == COMMAND_CONTINUE && raw == [] && !direct
    requires !isPadding ==> b.command == if direct then COMMAND_DIRECT else COMMAND_END
    requires direct ==> raw == []
    ensures GoodOutcome(bs, Outcome(blocks + [b], raw, isPadding, direct))
  {}

  /** At the top of the loop: what has been framed, and how the flags stand. */
  ghost predicate LoopReady(f: Filter, s: Seed, bs: seq<seq<byte>>, i: nat, blocks: seq<Block>, isPadding: bool,
                            direct: bool)
  {
    && GoodSeed(s) && i < |bs| && (forall b <- bs :: |b| <= SIZE - OVERHEAD)
    && AllContinue(blocks) && FitBuffers(blocks) && Contents(blocks) == Flatten(bs[..i])
    && FilterInvariant(f)
    && direct == (!isPadding && f.enableXtls)
  }

  lemma LoopTurn(f: Filter, s: Seed, complete: bool, bs: seq<seq<byte>>, i: nat, blocks: seq<Block>, isPadding: bool,
                 direct: bool, long: bool, draw: nat, d: Decision, block: Block)
    requires LoopReady(f, s, bs, i, blocks, isPadding, direct)
    requires d == Decide(f, bs[i], complete, i == |bs| - 1, isPadding, long)
    requires bs[i] in bs && block == BlockOf(s, d.command, bs[i], d.long, draw)
    ensures var (more, p) := (blocks + [block], isPadding && !d.endsPadding);
            if d.stop then GoodOutcome(bs, Outcome(more, Flatten(bs[i + 1..]), false, direct))
            else if i + 1 == |bs| then GoodOutcome(bs, Outcome(more, [], p, direct || d.direct))
            else LoopReady(f, s, bs, i + 1, more, p, direct || d.direct)
  {
    FrameKeepsContents(bs, i, blocks, block);
    if d.stop {
      LastGood(bs, blocks, block, Flatten(bs[i + 1..]), false, direct);
    } else if i + 1 == |bs| {
      assert bs[i + 1..] == [];
      LastGood(bs, blocks, block, [], isPadding && !d.endsPadding, direct || d.direct);
    }
  }

  lemma {:induction false} PadLoopGood(f: Filter, s: Seed, complete: bool, draws: seq<nat>, bs: seq<seq<byte>>,
                                       i: nat, blocks: seq<Block>, isPadding: bool, direct: bool, long: bool)
    requires LoopReady(f, s, bs, i, blocks, isPadding, direct)
    ensures GoodOutcome(bs, PadLoop(f, s, complete, draws, bs, i, blocks, isPadding, direct, long))
    decreases |bs| - i
  {
    assert bs[i] in bs;
    var d := Decide(f, bs[i], complete, i == |bs| - 1, isPadding, long);
    var block := BlockOf(s, d.command, bs[i], d.long, Draw(draws, i));
    LoopTurn(f, s, complete, bs, i, blocks, isPadding, direct, long, Draw(draws, i), d, block);
    if !d.stop && i + 1 < |bs| {
      PadLoopGood(f, s, complete, draws, bs, i + 1, blocks + [block], isPadding && !d.endsPadding, direct || d.direct,
                  d.nextLong);
    }
  }

  // ---- when the padding ends, and what is framed until then ----

  /**
   A buffer that ends the padding: the traffic is TLS, the call holds nothing but whole records, and an
   application-data record begins here.
   */
  ghost predicate EndsPadding(f: Filter, data: seq<byte>, b: seq<byte>) {
    f.isTLS && TlsRecords.IsRecords(data) && |b| >= 6 && b[0] == 0x17 && b[1] == 0x03 && b[2] == 0x03
  }

  /** The packets are running out without a sign of TLS 1.2 or above. */
  predicate GivesUp(f: Filter) {
    !f.isTLS12orAbove && f.packets <= 1
  }

  /** One of the first `n` buffers ends the padding. */
  ghost predicate EndsWithin(f: Filter, data: seq<byte>, bs: seq<seq<byte>>, n: nat)
    requires n <= |bs|
  {
    exists k :: 0 <= k < n && EndsPadding(f, data, bs[k])
  }

  /** Buffer `k` in its block. The padding is long until a buffer ends it, and for every buffer that does. */
  ghost predicate Frames(f: Filter, s: Seed, data: seq<byte>, draws: seq<nat>, bs: seq<seq<byte>>, k: nat, b: Block)
    requires GoodSeed(s) && k < |bs|
  {
    var long := EndsPadding(f, data, bs[k]) || (f.isTLS && !EndsWithin(f, data, bs, k));
    && b.content == bs[k]
    && |b.padding| == PaddingLength(s, |bs[k]|, long, Draw(draws, k)) && forall x <- b.padding :: x == 0
  }

  /** Buffers `i` to `n` are framed one by one; framing goes on past `n` unless it gives up there. */
  ghost predicate FramesUpTo(f: Filter, s: Seed, data: seq<byte>, draws: seq<nat>, bs: seq<seq<byte>>, i: nat,
                             blocks: seq<Block>)
    requires GoodSeed(s) && i <= |blocks| <= |bs|
  {
    && (forall k :: i <= k < |blocks| ==> Frames(f, s, data, draws, bs, k, blocks[k]))
    && (forall k :: i <= k < |blocks| - 1 && GivesUp(f) ==> EndsPadding(f, data, bs[k]))
    && (|blocks| < |bs| ==> i < |blocks| && GivesUp(f) && !EndsPadding(f, data, bs[|blocks| - 1]))
  }

  /** What is decided for a buffer, by what it holds. */
  lemma DecideByBytes(f: Filter, data: seq<byte>, b: seq<byte>, last: bool, isPadding: bool, long: bool, d: Decision)
    requires d == Decide(f, b, TlsRecords.Complete(data), last, isPadding, long)
    ensures d.stop <==> GivesUp(f) && !EndsPadding(f, data, b)
    ensures d.endsPadding <==> d.stop || EndsPadding(f, data, b)
    ensures d.long == (EndsPadding(f, data, b) || long) && d.nextLong == (long && !EndsPadding(f, data, b))
  {
    TlsRecords.CompleteIffRecords(data);
  }

  lemma OneFramed(f: Filter, s: Seed, data: seq<byte>, draws: seq<nat>, bs: seq<seq<byte>>, i: nat,
                  blocks: seq<Block>, isPadding: bool, long: bool, d: Decision, block: Block)
    requires GoodSeed(s) && i == |blocks| < |bs| && |bs[i]| <= SIZE - OVERHEAD
    requires isPadding == !EndsWithin(f, data, bs, i) && long == (f.isTLS && isPadding)
    requires d == Decide(f, bs[i], TlsRecords.Complete(data), i == |bs| - 1, isPadding, long)
    requires block == BlockOf(s, d.command, bs[i], d.long, Draw(draws, i))
    ensures Frames(f, s, data, draws, bs, i, block)
    ensures d.stop ==> FramesUpTo(f, s, data, draws, bs, i, blocks + [block])
    ensures !d.stop ==> (isPadding && !d.endsPadding) == !EndsWithin(f, data, bs, i + 1)
  {
    DecideByBytes(f, data, bs[i], i == |bs| - 1, isPadding, long, d);
  }

  /** The padding loop from buffer `i` on, by what the buffers hold. */
  ghost predicate FramedOutcome(f: Filter, s: Seed, data: seq<byte>, draws: seq<nat>, bs: seq<seq<byte>>, i: nat,
                                blocks: seq<Block>, o: Outcome)
    requires GoodSeed(s) && i <= |bs|
  {
    && i <= |o.blocks| <= |bs| && FramesUpTo(f, s, data, draws, bs, i, o.blocks)
    && blocks <= o.blocks
    && o.raw == Flatten(bs[|o.blocks|..])
    && (!o.isPadding <==> EndsWithin(f, data, bs, |bs|) || (i < |bs| && GivesUp(f)))
  }

  lemma FramedMore(f: Filter, s: Seed, data: seq<byte>, draws: seq<nat>, bs: seq<seq<byte>>, i: nat,
                   blocks: seq<Block>, block: Block, o: Outcome)
    requires GoodSeed(s) && i == |blocks| < |bs| && Frames(f, s, data, draws, bs, i, block)
    requires !GivesUp(f) || EndsPadding(f, data, bs[i])
    requires FramedOutcome(f, s, data, draws, bs, i + 1, blocks + [block], o)
    ensures FramedOutcome(f, s, data, draws, bs, i, blocks, o)
  {
    assert o.blocks[i] == (blocks + [block])[i] == block;
  }

  lemma FramedLast(f: Filter, s: Seed, data: seq<byte>, draws: seq<nat>, bs: seq<seq<byte>>, i: nat,
                   blocks: seq<Block>, block: Block, direct: bool)
    requires GoodSeed(s) && i == |blocks| < |bs| && GivesUp(f)
    requires FramesUpTo(f, s, data, draws, bs, i, blocks + [block])
    ensures FramedOutcome(f, s, data, draws, bs, i, blocks,
                          Outcome(blocks + [block], Flatten(bs[i + 1..]), false, direct))
  {}

  lemma {:induction false} PadLoopFrames(f: Filter, s: Seed, data: seq<byte>, draws: seq<nat>, bs: seq<seq<byte>>,
                                         i: nat, blocks: seq<Block>, isPadding: bool, direct: bool, long: bool)
    requires GoodSeed(s) && i == |blocks| <= |bs| && forall b <- bs :: |b| <= SIZE - OVERHEAD
    requires forall b <- blocks :: Fits(b)
    requires isPadding == !EndsWithin(f, data, bs, i) && long == (f.isTLS && isPadding)
    ensures FramedOutcome(f, s, data, draws, bs, i, blocks,
                          PadLoop(f, s, TlsRecords.Complete(data), draws, bs, i, blocks, isPadding, direct, long))
    decreases |bs| - i
  {
    if i < |bs| {
      assert bs[i] in bs;
      var d := Decide(f, bs[i], TlsRecords.Complete(data), i == |bs| - 1, isPadding, long);
      var block := BlockOf(s, d.command, bs[i], d.long, Draw(draws, i));
      OneFramed(f, s, data, draws, bs, i, blocks, isPadding, long, d, block);
      DecideByBytes(f, data, bs[i], i == |bs| - 1, isPadding, long, d);
      if d.stop {
        FramedLast(f, s, data, draws, bs, i, blocks, block, direct);
      } else {
        PadLoopFrames(f, s, data, draws, bs, i + 1, blocks + [block], isPadding && !d.endsPadding,
                      direct || d.direct, d.nextLong);
        FramedMore(f, s, data, draws, bs, i, blocks, block,
                   PadLoop(f, s, TlsRecords.Complete(data), draws, bs, i, blocks, isPadding, direct, long));
      }
    }
  }

  /** The direct-copy flag comes with the end of the padding, if direct copy has been enabled. */
  lemma {:induction false} PadLoopDirect(f: Filter, s: Seed, complete: bool, draws: seq<nat>, bs: seq<seq<byte>>,
                                         i: nat, blocks: seq<Block>, isPadding: bool, direct: bool, long: bool)
    requires GoodSeed(s) && i <= |bs| && (forall b <- bs :: |b| <= SIZE - OVERHEAD) && forall b <- blocks :: Fits(b)
    requires FilterInvariant(f) && direct == (!isPadding && f.enableXtls)
    ensures var o := PadLoop(f, s, complete, draws, bs, i, blocks, isPadding, direct, long);
            o.direct == (!o.isPadding && f.enableXtls)
    decreases |bs| - i
  {
    if i < |bs| {
      var d := Decide(f, bs[i], complete, i == |bs| - 1, isPadding, long);
      if !d.stop {
        var block := BlockOf(s, d.command, bs[i], d.long, Draw(draws, i));
        PadLoopDirect(f, s, complete, draws, bs, i + 1, blocks + [block], isPadding && !d.endsPadding,
                      direct || d.direct, d.nextLong);
      }
    }
  }

  // ---- one call as a step of the writer's state ----

  /** `raw` says that the writer has been replaced by the one for the raw connection. */
  datatype WriterState = WriterState(uuid: seq<byte>, isPadding: bool, direct: bool, raw: bool, filter: Filter)

  /** What a call puts on the wire: padding blocks, then unpadded bytes. */
  datatype Emission = Emission(blocks: seq<Block>, raw: seq<byte>)

  /** A single missing buffer asks for a bare header; otherwise every buffer is there. */
  predicate Writable(mb: seq<Buffer>) {
    AllBacked(mb) && (mb == [NoBuffer] || forall b <- mb :: b.Buffer? && |b.bytes| <= SIZE)
  }

  function BytesOf(mb: seq<Buffer>): (r: seq<seq<byte>>)
    ensures |r| == |mb|
    ensures forall k :: 0 <= k < |mb| ==> r[k] == Data(mb[k])
  {
    if mb == [] then [] else [Data(mb[0])] + BytesOf(mb[1..])
  }

  lemma {:induction false} FlattenBytesOf(mb: seq<Buffer>)
    ensures Flatten(BytesOf(mb)) == AllData(mb)
  {
    if mb != [] {
      FlattenBytesOf(mb[1..]);
      assert BytesOf(mb)[1..] == BytesOf(mb[1..]);
    }
  }

  function PadCall(f: Filter, s: Seed, mb: seq<Buffer>, draws: seq<nat>): (o: Outcome)
    requires GoodSeed(s) && Writable(mb)
    ensures forall b <- o.blocks :: Fits(b)
  {
    if mb == [NoBuffer] then
      Outcome([BlockOf(s, COMMAND_CONTINUE, [], true, Draw(draws, 0))], [], true, false)
    else
      var bs := BytesOf(mb);
      ReshapeCorrect(bs);
      PadLoop(f, s, TlsRecords.Complete(Flatten(bs)), draws, Reshape(bs), 0, [], true, false, f.isTLS)
  }

  function WriteStep(s: Seed, w: WriterState, mb: seq<Buffer>, draws: seq<nat>)
    : (r: (WriterState, Emission))
    requires GoodSeed(s) && Writable(mb)
    ensures forall b <- r.1.blocks :: Fits(b)
  {
    var f := Gated(w.filter, mb);
    var raw := w.raw || w.direct;
    if w.isPadding then
      var o := PadCall(f, s, mb, draws);
      (WriterState(if o.blocks == [] then w.uuid else [], o.isPadding, o.direct, raw, f), Emission(o.blocks, o.raw))
    else
      (WriterState(w.uuid, false, false, raw, f), Emission([], AllData(mb)))
  }

  /** The bytes of an emission; the identifier goes in front of the first block there is. */
  function EmittedBytes(uuid: seq<byte>, e: Emission): seq<byte>
    requires forall b <- e.blocks :: Fits(b)
  {
    (if e.blocks == [] then [] else uuid) + Wire(e.blocks) + e.raw
  }

  function Join(a: Emission, b: Emission): Emission {
    Emission(a.blocks + b.blocks, a.raw + b.raw)
  }

  /** What has been emitted so far, against the writer's state. */
  predicate WriterInvariant(uuid: seq<byte>, w: WriterState, e: Emission) {
    && FilterInvariant(w.filter)
    && FitBuffers(e.blocks)
    && w.uuid == (if e.blocks == [] then uuid else [])
    && (w.isPadding ==> AllContinue(e.blocks) && e.raw == [] && !w.direct && !w.raw)
    && (!w.isPadding ==>
          && PaddingPhase(e.blocks)
          && (w.direct || w.raw <==> e.blocks[|e.blocks| - 1].command == COMMAND_DIRECT)
          && (w.direct ==> e.raw == []))
  }

  lemma {:induction false} WireAppend(a: seq<Block>, b: seq<Block>)
    requires (forall x <- a :: Fits(x)) && (forall x <- b :: Fits(x))
    ensures Wire(a + b) == Wire(a) + Wire(b)
    ensures Contents(a + b) == Contents(a) + Contents(b)
  {
    if a == [] {
      assert a + b == b;
    } else {
      WireAppend(a[1..], b);
      assert (a + b)[1..] == a[1..] + b && (a + b)[0] == a[0];
      Assoc(Encode(a[0]), Wire(a[1..]), Wire(b));
      Assoc(a[0].content, Contents(a[1..]), Contents(b));
    }
  }

  /** The buffers of a call, reshaped and framed. */
  lemma FramedGood(f: Filter, s: Seed, bs: seq<seq<byte>>, draws: seq<nat>)
    requires GoodSeed(s) && FilterInvariant(f) && Regular(bs)
    ensures forall b <- Reshape(bs) :: |b| <= SIZE - OVERHEAD
    ensures var o := PadLoop(f, s, TlsRecords.Complete(Flatten(bs)), draws, Reshape(bs), 0, [], true, false, f.isTLS);
            GoodOutcome(bs, o) || (bs == [] && o == Outcome([], [], true, false))
  {
    ReshapeCorrect(bs);
    if bs != [] {
      var rs := Reshape(bs);
      assert rs[..0] == [];
      PadLoopGood(f, s, TlsRecords.Complete(Flatten(bs)), draws, rs, 0, [], true, false, f.isTLS);
    }
  }

  /** What one call guarantees about its outcome. */
  ghost predicate GoodCall(data: seq<byte>, o: Outcome) {
    && FitBuffers(o.blocks)
    && Contents(o.blocks) + o.raw == data
    && (o.isPadding ==> AllContinue(o.blocks) && o.raw == [] && !o.direct)
    && (!o.isPadding ==> PaddingPhase(o.blocks)
                         && (o.direct <==> o.blocks[|o.blocks| - 1].command == COMMAND_DIRECT)
                         && (o.direct ==> o.raw == []))
  }

  lemma PadCallGood(f: Filter, s: Seed, mb: seq<Buffer>, draws: seq<nat>)
    requires GoodSeed(s) && Writable(mb) && FilterInvariant(f)
    ensures GoodCall(AllData(mb), PadCall(f, s, mb, draws))
  {
    if mb == [NoBuffer] {
      assert mb[1..] == [];
      assert AllData(mb) == [];
    } else {
      FlattenBytesOf(mb);
      FramedGood(f, s, BytesOf(mb), draws);
    }
  }

  /**
   One call, whatever the state: padding blocks come only while padding, the terminal block comes in the
   very call that ends the padding, and the direct-copy flag is set exactly by a Direct terminal block.
   */
  lemma WriteStepFraming(s: Seed, uuid: seq<byte>, w: WriterState, e: Emission, mb: seq<Buffer>, draws: seq<nat>)
    requires GoodSeed(s) && Writable(mb) && WriterInvariant(uuid, w, e)
    ensures var (w', e') := WriteStep(s, w, mb, draws);
            && Contents(e'.blocks) + e'.raw == AllData(mb)
            && FitBuffers(e'.blocks)
            && (!w.isPadding ==> e'.blocks == [] && !w'.isPadding && !w'.direct)
            && (w'.isPadding ==> AllContinue(e'.blocks) && e'.raw == [] && !w'.direct)
            && (w.isPadding && !w'.isPadding ==>
                  PaddingPhase(e'.blocks)
                  && (w'.direct <==> e'.blocks[|e'.blocks| - 1].command == COMMAND_DIRECT)
                  && (w'.direct ==> e'.raw == []))
            && (w'.raw <==> w.raw || w.direct)
            && FilterInvariant(w'.filter)
  {
    if w.filter.packets > 0 {
      FilterAllKeeps(w.filter, mb);
    }
    if w.isPadding {
      PadCallGood(Gated(w.filter, mb), s, mb, draws);
    } else {
      assert Contents([]) + AllData(mb) == AllData(mb);
    }
  }

  /** The call asks for nothing but a header, or for nothing at all. */
  predicate Blank(mb: seq<Buffer>) {
    mb == [] || mb == [NoBuffer]
  }

  /**
   When the padding ends: in a call of whole TLS records with an application-data record at the front of a buffer,
   or in one that finds no TLS 1.2 while the packets run out. Direct copy follows if it has been enabled.
   */
  lemma PaddingEndsIff(s: Seed, w: WriterState, mb: seq<Buffer>, draws: seq<nat>)
    requires GoodSeed(s) && Writable(mb) && w.isPadding && FilterInvariant(w.filter)
    ensures Regular(BytesOf(mb))
    ensures var (f, w') := (Gated(w.filter, mb), WriteStep(s, w, mb, draws).0);
            var rs := Reshape(BytesOf(mb));
            && (!w'.isPadding <==> !Blank(mb) && (EndsWithin(f, AllData(mb), rs, |rs|) || GivesUp(f)))
            && (w'.direct <==> !w'.isPadding && f.enableXtls)
  {
    var f := Gated(w.filter, mb);
    if w.filter.packets > 0 {
      FilterAllKeeps(w.filter, mb);
    }
    if mb != [NoBuffer] {
      var bs, data := BytesOf(mb), AllData(mb);
      FlattenBytesOf(mb);
      ReshapeCorrect(bs);
      var rs := Reshape(bs);
      PadLoopFrames(f, s, data, draws, rs, 0, [], true, false, f.isTLS);
      PadLoopDirect(f, s, TlsRecords.Complete(data), draws, rs, 0, [], true, false, f.isTLS);
    }
  }

  /** A call that ends in direct copy is made of whole records, and direct copy has been enabled. */
  lemma DirectOnlyAtRecords(s: Seed, w: WriterState, mb: seq<Buffer>, draws: seq<nat>)
    requires GoodSeed(s) && Writable(mb) && w.isPadding && FilterInvariant(w.filter)
    ensures WriteStep(s, w, mb, draws).0.direct ==>
              TlsRecords.IsRecords(AllData(mb)) && Gated(w.filter, mb).enableXtls
  {
    if w.filter.packets > 0 {
      FilterAllKeeps(w.filter, mb);
    }
    PaddingEndsIff(s, w, mb, draws);
  }

  /**
   What is framed: a bare header if that is asked for; otherwise every buffer of the reshaped call in a block of its
   own, up to the one where the writer gives up; the rest goes out unpadded.
   */
  lemma FramedByBuffers(s: Seed, w: WriterState, mb: seq<Buffer>, draws: seq<nat>)
    requires GoodSeed(s) && Writable(mb) && w.isPadding
    ensures var (f, e') := (Gated(w.filter, mb), WriteStep(s, w, mb, draws).1);
            if mb == [NoBuffer] then
              && |e'.blocks| == 1 && e'.raw == [] && e'.blocks[0].content == []
              && e'.blocks[0].command == COMMAND_CONTINUE
              && |e'.blocks[0].padding| == PaddingLength(s, 0, true, Draw(draws, 0))
            else
              var (rs, n) := (Reshape(BytesOf(mb)), |e'.blocks|);
              && n <= |rs| && FramesUpTo(f, s, AllData(mb), draws, rs, 0, e'.blocks)
              && e'.raw == Flatten(rs[n..])
  {
    if mb != [NoBuffer] {
      var (f, bs, data) := (Gated(w.filter, mb), BytesOf(mb), AllData(mb));
      FlattenBytesOf(mb);
      ReshapeCorrect(bs);
      PadLoopFrames(f, s, data, draws, Reshape(bs), 0, [], true, false, f.isTLS);
    }
  }

  lemma JoinPhase(a: seq<Block>, b: seq<Block>)
    requires AllContinue(a)
    ensures AllContinue(b) ==> AllContinue(a + b)
    ensures PaddingPhase(b) ==> PaddingPhase(a + b) && (a + b)[|a + b| - 1] == b[|b| - 1]
  {}

  lemma WriteStepKeeps(s: Seed, uuid: seq<byte>, w: WriterState, e: Emission, mb: seq<Buffer>, draws: seq<nat>)
    requires GoodSeed(s) && Writable(mb) && WriterInvariant(uuid, w, e)
    ensures var (w', e') := WriteStep(s, w, mb, draws); WriterInvariant(uuid, w', Join(e, e'))
  {
    WriteStepFraming(s, uuid, w, e, mb, draws);
    var (w', e') := WriteStep(s, w, mb, draws);
    if w.isPadding {
      JoinPhase(e.blocks, e'.blocks);
    } else {
      assert e.blocks + e'.blocks == e.blocks;
    }
  }

  lemma JoinContents(a: Emission, b: Emission)
    requires (forall x <- a.blocks + b.blocks :: Fits(x)) && (a.raw == [] || b.blocks == [])
    ensures Contents(Join(a, b).blocks) + Join(a, b).raw == (Contents(a.blocks) + a.raw) + (Contents(b.blocks) + b.raw)
    ensures Wire(Join(a, b).blocks) + Join(a, b).raw == (Wire(a.blocks) + a.raw) + (Wire(b.blocks) + b.raw)
  {
    assert forall x <- a.blocks :: x in a.blocks + b.blocks;
    assert forall x <- b.blocks :: x in a.blocks + b.blocks;
    WireAppend(a.blocks, b.blocks);
    if b.blocks == [] {
      assert Contents(b.blocks) + b.raw == b.raw && Wire(b.blocks) + b.raw == b.raw;
      Assoc(Contents(a.blocks), a.raw, b.raw);
      Assoc(Wire(a.blocks), a.raw, b.raw);
      assert a.blocks + b.blocks == a.blocks;
    } else {
      assert a.raw + b.raw == b.raw;
      assert Contents(a.blocks) + a.raw == Contents(a.blocks) && Wire(a.blocks) + a.raw == Wire(a.blocks);
      Assoc(Contents(a.blocks), Contents(b.blocks), b.raw);
      Assoc(Wire(a.blocks), Wire(b.blocks), b.raw);
    }
  }

  lemma EmittedJoin(uuid: seq<byte>, a: Emission, b: Emission)
    requires (forall x <- a.blocks + b.blocks :: Fits(x)) && (a.raw == [] || b.blocks == [])
    requires a.blocks == [] ==> a.raw == []
    requires forall x <- a.blocks :: Fits(x)
    requires forall x <- b.blocks :: Fits(x)
    ensures EmittedBytes(uuid, Join(a, b))
            == EmittedBytes(uuid, a) + EmittedBytes(if a.blocks == [] then uuid else [], b)
  {
    JoinContents(a, b);
    if a.blocks == [] {
      assert Join(a, b) == Emission(b.blocks, b.raw) by {
        assert a.blocks + b.blocks == b.blocks && a.raw + b.raw == b.raw;
      }
      assert EmittedBytes(uuid, a) == [];
    } else {
      Assoc(uuid, Wire(Join(a, b).blocks), Join(a, b).raw);
      Assoc(uuid, Wire(a.blocks), a.raw);
      assert [] + Wire(b.blocks) == Wire(b.blocks);
      Assoc(uuid, Wire(a.blocks) + a.raw, Wire(b.blocks) + b.raw);
    }
  }

  // ---- whole runs ----

  /** A call of the writer, or a filter call made by the other direction in between. */
  datatype Event = Write(mb: seq<Buffer>, draws: seq<nat>) | OtherDirection(mb: seq<Buffer>)

  predicate Possible(event: Event) {
    if event.Write? then Writable(event.mb) else AllBacked(event.mb)
  }

  /** A run so far: the state, what has been emitted, and what each of the two connections was given. */
  datatype History = History(w: WriterState, e: Emission, outer: seq<byte>, rawConn: seq<byte>)

  function Begin(uuid: seq<byte>): History {
    History(WriterState(uuid, true, false, false, FRESH), Emission([], []), [], [])
  }

  function Happen(s: Seed, h: History, event: Event): History
    requires GoodSeed(s) && Possible(event)
  {
    match event
    case OtherDirection(mb) => h.(w := h.w.(filter := Gated(h.w.filter, mb)))
    case Write(mb, draws) =>
      var (w', e') := WriteStep(s, h.w, mb, draws);
      var bytes := EmittedBytes(h.w.uuid, e');
      History(w', Join(h.e, e'),
              if w'.raw then h.outer else h.outer + bytes,
              if w'.raw then h.rawConn + bytes else h.rawConn)
  }

  function HappenAll(s: Seed, h: History, events: seq<Event>): History
    requires GoodSeed(s) && forall event <- events :: Possible(event)
    decreases |events|
  {
    if events == [] then h else HappenAll(s, Happen(s, h, events[0]), events[1..])
  }

  /** The bytes the callers of the writer wanted to send. */
  function Written(events: seq<Event>): seq<byte> {
    if events == [] then []
    else (if events[0].Write? then AllData(events[0].mb) else []) + Written(events[1..])
  }

  /** What both connections together carry is the framed stream, and the raw one carries the part after Direct. */
  predicate Carried(uuid: seq<byte>, h: History) {
    && WriterInvariant(uuid, h.w, h.e)
    && (forall b <- h.e.blocks :: Fits(b))
    && h.outer + h.rawConn == EmittedBytes(uuid, h.e)
    && (!h.w.raw ==> h.rawConn == [])
    && (h.w.raw ==> h.rawConn == h.e.raw)
  }

  lemma HappenKeeps(s: Seed, uuid: seq<byte>, h: History, event: Event)
    requires GoodSeed(s) && Possible(event) && Carried(uuid, h)
    ensures Carried(uuid, Happen(s, h, event))
    ensures var h' := Happen(s, h, event);
            Contents(h'.e.blocks) + h'.e.raw
            == (Contents(h.e.blocks) + h.e.raw) + (if event.Write? then AllData(event.mb) else [])
  {
    match event
    case OtherDirection(mb) =>
      if h.w.filter.packets > 0 {
        FilterAllKeeps(h.w.filter, mb);
      }
      assert Contents(h.e.blocks) + h.e.raw + [] == Contents(h.e.blocks) + h.e.raw;
    case Write(mb, draws) =>
      var (w', e') := WriteStep(s, h.w, mb, draws);
      WriteStepKeeps(s, uuid, h.w, h.e, mb, draws);
      WriteStepFraming(s, uuid, h.w, h.e, mb, draws);
      JoinContents(h.e, e');
      EmittedJoin(uuid, h.e, e');
      var bytes := EmittedBytes(h.w.uuid, e');
      if w'.raw {
        assert bytes == e'.raw by { assert [] + Wire([]) + e'.raw == e'.raw; }
        Assoc(h.outer, h.rawConn, bytes);
      } else {
        assert h.outer + [] == h.outer && h.outer + bytes + [] == h.outer + bytes;
      }
  }

  /**
   Framing over all runs, with filter calls of the other direction in between: one identifier, Continue
   blocks, at most one terminal block, then unpadded bytes, on the raw connection exactly after a Direct;
   and what was written is what the blocks and the unpadded bytes contain.
   */
  lemma {:induction false} RunFraming(s: Seed, uuid: seq<byte>, h: History, events: seq<Event>)
    requires GoodSeed(s) && Carried(uuid, h) && forall event <- events :: Possible(event)
    ensures Carried(uuid, HappenAll(s, h, events))
    ensures var h' := HappenAll(s, h, events);
            Contents(h'.e.blocks) + h'.e.raw == (Contents(h.e.blocks) + h.e.raw) + Written(events)
    decreases |events|
  {
    var sofar := Contents(h.e.blocks) + h.e.raw;
    if events == [] {
      assert sofar + [] == sofar;
    } else {
      HappenKeeps(s, uuid, h, events[0]);
      RunFraming(s, uuid, Happen(s, h, events[0]), events[1..]);
      Assoc(sofar, if events[0].Write? then AllData(events[0].mb) else [], Written(events[1..]));
    }
  }

  function Sent(events: seq<Event>): (calls: seq<seq<Buffer>>)
    ensures |calls| == |events| && forall k | 0 <= k < |events| :: calls[k] == events[k].mb
  {
    seq(|events|, k requires 0 <= k < |events| => events[k].mb)
  }

  /** Over every run the filter has seen the packets of both directions, each call before it is padded. */
  lemma {:induction false} FilterSeesCalls(s: Seed, h: History, events: seq<Event>)
    requires GoodSeed(s) && forall event <- events :: Possible(event)
    ensures forall mb <- Sent(events) :: AllBacked(mb)
    ensures HappenAll(s, h, events).w.filter == FilterRun(h.w.filter, Sent(events))
    decreases |events|
  {
    forall k | 0 <= k < |events| ensures AllBacked(Sent(events)[k]) { assert Possible(events[k]); }
    if events != [] {
      FilterSeesCalls(s, Happen(s, h, events[0]), events[1..]);
      assert Sent(events)[1..] == Sent(events[1..]);
    }
  }

  lemma BeginCarried(uuid: seq<byte>)
    ensures Carried(uuid, Begin(uuid))
  {
    assert [] + Wire([]) + [] == [];
  }

  /** The bytes of framed buffers, the identifier in front of the first block. */
  function FramedBytes(uuid: seq<byte>, blocks: seq<Block>): seq<byte>
    requires forall b <- blocks :: Fits(b)
  {
    (if blocks == [] then [] else uuid) + Wire(blocks)
  }

  lemma OneMoreFrame(uuid: seq<byte>, blocks: seq<Block>, b: Block)
    requires (forall x <- blocks :: Fits(x)) && Fits(b)
    ensures FramedBytes(uuid, blocks + [b])
            == FramedBytes(uuid, blocks) + ((if blocks == [] then uuid else []) + Encode(b))
  {
    WireAppend(blocks, [b]);
    assert Wire([b]) == Encode(b) + Wire([b][1..]) == Encode(b);
    if blocks == [] {
      assert blocks + [b] == [b];
    } else {
      assert [] + Encode(b) == Encode(b);
      Assoc(uuid, Wire(blocks), Encode(b));
    }
  }

  /** The first `i` buffers have been framed in place, as `blocks`. */
  ghost predicate Framed(uuid: seq<byte>, bs: seq<seq<byte>>, mb: seq<seq<byte>>, i: nat, blocks: seq<Block>) {
    && i <= |mb| == |bs| && mb[i..] == bs[i..]
    && (forall x <- blocks :: Fits(x))
    && Flatten(mb[..i]) == FramedBytes(uuid, blocks)
  }

  /** One more buffer framed in place. */
  lemma NextFrame(uuid: seq<byte>, bs: seq<seq<byte>>, mb: seq<seq<byte>>, i: nat, blocks: seq<Block>, b: Block,
                  padded: seq<byte>)
    requires Framed(uuid, bs, mb, i, blocks) && i < |bs| && Fits(b)
    requires padded == (if blocks == [] then uuid else []) + Encode(b)
    ensures Framed(uuid, bs, mb[i := padded], i + 1, blocks + [b])
  {
    var m := mb[i := padded];
    assert m[i + 1..] == mb[i..][1..] && bs[i + 1..] == bs[i..][1..];
    assert m[..i + 1] == mb[..i] + [padded];
    FlattenSnoc(mb[..i], padded);
    OneMoreFrame(uuid, blocks, b);
  }

  lemma FramedTotal(uuid: seq<byte>, bs: seq<seq<byte>>, mb: seq<seq<byte>>, i: nat, blocks: seq<Block>)
    requires Framed(uuid, bs, mb, i, blocks)
    ensures Flatten(mb) == FramedBytes(uuid, blocks) + Flatten(bs[i..])
  {
    assert mb == mb[..i] + mb[i..];
    FlattenAppend(mb[..i], mb[i..]);
  }

  // ---- the code ----

  class VisionWriter {
    const trafficState: TrafficState
    const isUplink: bool
    const seed: Seed
    var writeOnceUserUUID: seq<byte>
    var replaced: bool           // the writer is the one for the raw connection
    var outer: seq<byte>         // what the original writer was given
    var rawConn: seq<byte>       // what the raw connection was given

    constructor (trafficState: TrafficState, isUplink: bool, testseed: seq<nat>)
      ensures this.trafficState == trafficState && this.isUplink == isUplink
      ensures |testseed| < 4 ==> seed == DEFAULT_SEED
      ensures |testseed| >= 4 ==> [seed.longBelow, seed.longRange, seed.longBase, seed.shortRange] == testseed[..4]
      ensures writeOnceUserUUID == trafficState.userUUID && !replaced && outer == [] && rawConn == []
    {
      this.trafficState := trafficState;
      this.isUplink := isUplink;
      writeOnceUserUUID := trafficState.userUUID;
      seed := SeedFrom(testseed);
      replaced, outer, rawConn := false, [], [];
    }

    function Link(): LinkState {
      if isUplink then trafficState.outbound else trafficState.inbound
    }

    function Value(): WriterState
      reads this, trafficState, Link()
    {
      WriterState(writeOnceUserUUID, Link().isPadding, Link().writerDirectCopy, replaced, trafficState.FilterValue())
    }

    /** Frames one buffer; the first one also carries the identifier. */
    method XtlsPadding(b: seq<byte>, command: byte, long: bool, draw: nat) returns (newbuffer: seq<byte>)
      requires GoodSeed(seed) && |b| <= SIZE - OVERHEAD
      modifies `writeOnceUserUUID
      ensures newbuffer == old(writeOnceUserUUID) + Encode(BlockOf(seed, command, b, long, draw))
      ensures writeOnceUserUUID == []
      ensures old(|writeOnceUserUUID|) <= 16 ==> |newbuffer| <= SIZE
    {
      var contentLen: int, paddingLen: int := |b|, 0;
      if contentLen < seed.longBelow && long {
        paddingLen := Below(seed.longRange, draw) + seed.longBase - contentLen;
      } else {
        paddingLen := Below(seed.shortRange, draw);
      }
      if paddingLen > SIZE - 21 - contentLen {
        paddingLen := SIZE - 21 - contentLen;
      }
      PaddingNonNegative(seed);
      assert paddingLen == PaddingLength(seed, contentLen, long, draw);
      newbuffer := writeOnceUserUUID;
      writeOnceUserUUID := [];
      newbuffer := newbuffer + [command, (contentLen / 256) as byte, (contentLen % 256) as byte,
                                (paddingLen / 256) as byte, (paddingLen % 256) as byte];
      newbuffer := newbuffer + b;
      newbuffer := newbuffer + Zeros(paddingLen);
      var block := BlockOf(seed, command, b, long, draw);
      assert block.padding == Zeros(paddingLen);
      assert newbuffer == old(writeOnceUserUUID) + Encode(block);
    }

    /** What happens to one buffer: the flags change and the buffer is framed. */
    method PadOne(b: seq<byte>, complete: bool, last: bool, longPadding: bool, draw: nat)
      returns (padded: seq<byte>, nextLong: bool, stop: bool, ghost d: Decision, ghost block: Block)
      requires GoodSeed(seed) && |b| <= SIZE - OVERHEAD
      modifies `writeOnceUserUUID, Link()`isPadding, Link()`writerDirectCopy
      ensures writeOnceUserUUID == []
      ensures d == Decide(trafficState.FilterValue(), b, complete, last, old(Link().isPadding), longPadding)
      ensures block == BlockOf(seed, d.command, b, d.long, draw)
      ensures padded == old(writeOnceUserUUID) + Encode(block)
      ensures nextLong == d.nextLong && stop == d.stop
      ensures Link().isPadding == (old(Link().isPadding) && !d.endsPadding)
      ensures Link().writerDirectCopy == (old(Link().writerDirectCopy) || d.direct)
    {
      var link := Link();
      d := Decide(trafficState.FilterValue(), b, complete, last, link.isPadding, longPadding);
      block := BlockOf(seed, d.command, b, d.long, draw);
      nextLong, stop := longPadding, false;
      var command := COMMAND_CONTINUE;
      if trafficState.isTLS && StartsApplicationData(b) && complete {
        if trafficState.enableXtls {
          link.writerDirectCopy := true;
        }
        if last {
          command := COMMAND_END;
          if trafficState.enableXtls {
            command := COMMAND_DIRECT;
          }
        }
        padded := XtlsPadding(b, command, true, draw);
        link.isPadding := false;
        nextLong := false;
      } else if !trafficState.isTLS12orAbove && trafficState.numberOfPacketToFilter <= 1 {
        link.isPadding := false;
        padded := XtlsPadding(b, COMMAND_END, longPadding, draw);
        stop := true;
      } else {
        if last && !link.isPadding {
          command := COMMAND_END;
          if trafficState.enableXtls {
            command := COMMAND_DIRECT;
          }
        }
        padded := XtlsPadding(b, command, longPadding, draw);
      }
    }

    /** One turn of the padding loop: buffer `i` is framed in place. */
    method PadAt(mb: seq<seq<byte>>, i: nat, complete: bool, longPadding: bool, draw: nat,
                 ghost f: Filter, ghost uuid: seq<byte>, ghost bs: seq<seq<byte>>, ghost blocks: seq<Block>)
      returns (mb2: seq<seq<byte>>, nextLong: bool, stop: bool, ghost d: Decision, ghost block: Block)
      requires GoodSeed(seed) && i < |mb| && Framed(uuid, bs, mb, i, blocks) && |bs[i]| <= SIZE - OVERHEAD
      requires f == trafficState.FilterValue() && writeOnceUserUUID == (if blocks == [] then uuid else [])
      modifies `writeOnceUserUUID, Link()`isPadding, Link()`writerDirectCopy
      ensures Framed(uuid, bs, mb2, i + 1, blocks + [block]) && writeOnceUserUUID == []
      ensures d == Decide(f, bs[i], complete, i == |bs| - 1, old(Link().isPadding), longPadding)
      ensures block == BlockOf(seed, d.command, bs[i], d.long, draw)
      ensures nextLong == d.nextLong && stop == d.stop
      ensures Link().isPadding == (old(Link().isPadding) && !d.endsPadding)
      ensures Link().writerDirectCopy == (old(Link().writerDirectCopy) || d.direct)
    {
      assert mb[i] == mb[i..][0] && bs[i] == bs[i..][0];
      var padded;
      padded, nextLong, stop, d, block := PadOne(mb[i], complete, i == |mb| - 1, longPadding, draw);
      NextFrame(uuid, bs, mb, i, blocks, block, padded);
      mb2 := mb[i := padded];
    }

    /** The loop that frames the reshaped buffers in place and decides when the padding ends. */
    method PadBuffers(bs: seq<seq<byte>>, complete: bool, draws: seq<nat>)
      returns (mb: seq<seq<byte>>, ghost goal: Outcome)
      requires GoodSeed(seed) && forall b <- bs :: |b| <= SIZE - OVERHEAD
      requires Link().isPadding && !Link().writerDirectCopy
      modifies `writeOnceUserUUID, Link()`isPadding, Link()`writerDirectCopy
      ensures var f := trafficState.FilterValue();
              goal == PadLoop(f, seed, complete, draws, bs, 0, [], true, false, f.isTLS)
      ensures Flatten(mb) == FramedBytes(old(writeOnceUserUUID), goal.blocks) + goal.raw
      ensures writeOnceUserUUID == (if goal.blocks == [] then old(writeOnceUserUUID) else [])
      ensures Link().isPadding == goal.isPadding && Link().writerDirectCopy == goal.direct
    {
      mb := bs;
      var link, longPadding := Link(), trafficState.isTLS;
      ghost var f, uuid, blocks := trafficState.FilterValue(), writeOnceUserUUID, [];
      goal := PadLoop(f, seed, complete, draws, bs, 0, [], true, false, f.isTLS);
      for i := 0 to |bs|
        invariant f == trafficState.FilterValue()
        invariant Framed(uuid, bs, mb, i, blocks)
        invariant Leads(goal, f, seed, complete, draws, bs, i, blocks, link.isPadding, link.writerDirectCopy,
                        longPadding)
        invariant writeOnceUserUUID == (if blocks == [] then uuid else [])
      {
        ghost var d, block, p, r, l := *, *, link.isPadding, link.writerDirectCopy, longPadding;
        var stop;
        mb, longPadding, stop, d, block := PadAt(mb, i, complete, longPadding, Draw(draws, i), f, uuid, bs, blocks);
        LeadsNext(goal, f, seed, complete, draws, bs, i, blocks, p, r, l, d, block);
        blocks := blocks + [block];
        if stop {
          FramedTotal(uuid, bs, mb, i + 1, blocks);
          return;
        }
      }
      FramedTotal(uuid, bs, mb, |bs|, blocks);
      LeadsEnd(goal, f, seed, complete, draws, bs, blocks, link.isPadding, link.writerDirectCopy, longPadding);
    }

    /** What is left to do for the padding once the filter has looked at the call's buffers. */
    method Pad(mb: seq<Buffer>, draws: seq<nat>) returns (bytes: seq<byte>, ghost o: Outcome)
      requires GoodSeed(seed) && Writable(mb)
      requires Link().isPadding && !Link().writerDirectCopy
      modifies `writeOnceUserUUID, Link()`isPadding, Link()`writerDirectCopy
      ensures o == PadCall(trafficState.FilterValue(), seed, mb, draws)
      ensures bytes == EmittedBytes(old(writeOnceUserUUID), Emission(o.blocks, o.raw))
      ensures writeOnceUserUUID == (if o.blocks == [] then old(writeOnceUserUUID) else [])
      ensures Link().isPadding == o.isPadding && Link().writerDirectCopy == o.direct
    {
      if |mb| == 1 && mb[0].NoBuffer? {
        ghost var uuid := writeOnceUserUUID;
        bytes := XtlsPadding([], COMMAND_CONTINUE, true, Draw(draws, 0));
        var block := BlockOf(seed, COMMAND_CONTINUE, [], true, Draw(draws, 0));
        o := Outcome([block], [], true, false);
        OneMoreFrame(uuid, [], block);
        assert [] + [block] == [block];
        assert bytes == EmittedBytes(uuid, Emission([block], []));
      } else {
        var bs := BytesOf(mb);
        var complete := TlsRecords.IsCompleteRecord(bs);
        ReshapeCorrect(bs);
        var reshaped := ReshapeMultiBuffer(bs);
        var framed;
        framed, o := PadBuffers(reshaped, complete, draws);
        bytes := Flatten(framed);
      }
    }

    /** Writes the buffers, padded and framed while the padding lasts. */
    method WriteMultiBuffer(mb: seq<Buffer>, draws: seq<nat>)
      requires GoodSeed(seed) && Writable(mb)
      requires Link().isPadding ==> !Link().writerDirectCopy
      requires trafficState.inbound != trafficState.outbound
      modifies this, trafficState, Link()`isPadding, Link()`writerDirectCopy
      ensures var (w, e) := WriteStep(seed, old(Value()), mb, draws);
              && Value() == w
              && outer == old(outer) + (if w.raw then [] else EmittedBytes(old(writeOnceUserUUID), e))
              && rawConn == old(rawConn) + (if w.raw then EmittedBytes(old(writeOnceUserUUID), e) else [])
      ensures unchanged(if isUplink then trafficState.inbound else trafficState.outbound)
    {
      ghost var before := Value();
      var link := Link();
      if link.writerDirectCopy {
        replaced := true;
        link.writerDirectCopy := false;
      }
      if trafficState.numberOfPacketToFilter > 0 {
        trafficState.XtlsFilterTls(mb);
      }
      assert trafficState.FilterValue() == Gated(before.filter, mb);
      var bytes;
      if link.isPadding {
        ghost var o;
        bytes, o := Pad(mb, draws);
      } else {
        bytes := AllData(mb);
        assert [] + Wire([]) + bytes == bytes;
      }
      if replaced {
        rawConn := rawConn + bytes;
      } else {
        outer := outer + bytes;
      }
    }
  }
}
