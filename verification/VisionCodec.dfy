/**
 The wire format of the Vision padding, and what the unpadder makes of it however the
 stream is cut into buffers.
 */
module VisionCodec {
  import opened Bytes
  import opened Sequences
  import opened VisionUnpad

  datatype Block = Block(command: byte, content: seq<byte>, padding: seq<byte>)

  /** Both lengths fit their 16-bit fields. */
  predicate Fits(b: Block) {
    |b.content| < 0x10000 && |b.padding| < 0x10000
  }

  function High(n: nat): byte
    requires n < 0x10000
  {
    (n / 256) as byte
  }

  function Low(n: nat): byte {
    (n % 256) as byte
  }

  function Header(b: Block): (r: seq<byte>)
    requires Fits(b)
    ensures |r| == 5
  {
    [b.command, High(|b.content|), Low(|b.content|), High(|b.padding|), Low(|b.padding|)]
  }

  function Encode(b: Block): (r: seq<byte>)
    requires Fits(b)
    ensures |r| == 5 + |b.content| + |b.padding|
  {
    Header(b) + b.content + b.padding
  }

  function Wire(blocks: seq<Block>): seq<byte>
    requires forall b <- blocks :: Fits(b)
  {
    if blocks == [] then [] else Encode(blocks[0]) + Wire(blocks[1..])
  }

  function Contents(blocks: seq<Block>): seq<byte> {
    if blocks == [] then [] else blocks[0].content + Contents(blocks[1..])
  }

  /** A padding phase: Continue blocks and one final End or Direct block. */
  predicate PaddingPhase(blocks: seq<Block>) {
    && blocks != []
    && (forall b <- blocks :: Fits(b))
    && (forall k :: 0 <= k < |blocks| - 1 ==> blocks[k].command == COMMAND_CONTINUE)
    && blocks[|blocks| - 1].command in {COMMAND_END, COMMAND_DIRECT}
  }

  // ---- one block, byte by byte ----

  function Min(a: int, b: int): int { if a < b then a else b }

  /** The counters after a whole block. */
  function After(command: byte): Counters {
    if command == COMMAND_CONTINUE then Counters(5, 0, 0, 0) else Counters(-1, -1, -1, command as int)
  }

  /** The counters after the first `n` bytes of a block. */
  function StateAt(c: Counters, b: Block, n: nat): Counters
    requires Fits(b) && n <= 5 + |b.content| + |b.padding|
  {
    if n == 0 then c
    else if n == 1 then Counters(4, c.content, c.padding, b.command as int)
    else if n == 2 then Counters(3, |b.content| / 256 * 256, c.padding, b.command as int)
    else if n == 3 then Counters(2, |b.content|, c.padding, b.command as int)
    else if n == 4 then Counters(1, |b.content|, |b.padding| / 256 * 256, b.command as int)
    else if n == 5 + |b.content| + |b.padding| then After(b.command)
    else if n - 5 <= |b.content| then Counters(0, |b.content| - (n - 5), |b.padding|, b.command as int)
    else Counters(0, 0, |b.content| + |b.padding| - (n - 5), b.command as int)
  }

  function OutputAt(b: Block, n: nat): seq<byte> {
    if n <= 5 then [] else b.content[..Min(n - 5, |b.content|)]
  }

  lemma RunHeaderPrefix(c: Counters, b: Block, n: nat)
    requires Fits(b) && InBlock(c) && c.command == 5 && n <= 4
    ensures Run(c, Header(b)[..n]) == (StateAt(c, b, n), [])
  {
    var h := Header(b);
    if n > 0 {
      RunHeaderPrefix(c, b, n - 1);
      RunConcat(c, h[..n - 1], [h[n - 1]]);
      assert h[..n] == h[..n - 1] + [h[n - 1]];
      var s := StateAt(c, b, n - 1);
      RunHeader(s, [h[n - 1]]);
      assert [h[n - 1]][1..] == [];
      assert Run(s, [h[n - 1]]) == (StateAt(c, b, n), []);
    }
  }

  lemma RunWholeHeader(c: Counters, b: Block)
    requires Fits(b) && InBlock(c) && c.command == 5
    ensures Run(c, Header(b)) == (StateAt(c, b, 5), [])
  {
    var h := Header(b);
    RunHeaderPrefix(c, b, 4);
    RunConcat(c, h[..4], [h[4]]);
    assert h == h[..4] + [h[4]];
    RunHeader(StateAt(c, b, 4), [h[4]]);
    assert [h[4]][1..] == [];
  }

  lemma RunContentPrefix(c: Counters, b: Block, m: nat)
    requires Fits(b) && InBlock(c) && c.command == 5 && m <= |b.content|
    ensures Run(c, Header(b) + b.content[..m]) == (StateAt(c, b, 5 + m), b.content[..m])
  {
    var h := StateAt(c, b, 5);
    RunWholeHeader(c, b);
    RunConcat(c, Header(b), b.content[..m]);
    if m > 0 {
      RunContent(h, b.content[..m]);
      assert Settle(h.(content := |b.content| - m)) == StateAt(c, b, 5 + m);
    }
    assert [] + b.content[..m] == b.content[..m];
  }

  lemma RunPaddingPrefix(c: Counters, b: Block, p: nat)
    requires Fits(b) && InBlock(c) && c.command == 5 && 0 < p <= |b.padding|
    ensures Run(c, Header(b) + b.content + b.padding[..p]) == (StateAt(c, b, 5 + |b.content| + p), b.content)
  {
    var m := |b.content|;
    RunContentPrefix(c, b, m);
    assert b.content[..m] == b.content;
    RunConcat(c, Header(b) + b.content, b.padding[..p]);
    RunPadding(StateAt(c, b, 5 + m), b.padding[..p]);
    assert b.content + [] == b.content;
  }

  /** The unpadder inside a block: the exact counters and output after any number of its bytes. */
  lemma RunPrefix(c: Counters, b: Block, n: nat)
    requires Fits(b) && InBlock(c) && c.command == 5 && n <= |Encode(b)|
    ensures Run(c, Encode(b)[..n]) == (StateAt(c, b, n), OutputAt(b, n))
  {
    if n <= 4 {
      RunHeaderPrefix(c, b, n);
      assert Encode(b)[..n] == Header(b)[..n];
    } else if n - 5 <= |b.content| {
      RunContentPrefix(c, b, n - 5);
      assert Encode(b)[..n] == Header(b) + b.content[..n - 5];
    } else {
      RunPaddingPrefix(c, b, n - 5 - |b.content|);
      assert Encode(b)[..n] == Header(b) + b.content + b.padding[..n - 5 - |b.content|];
      assert b.content[..|b.content|] == b.content;
    }
  }

  lemma RunBlock(c: Counters, b: Block)
    requires Fits(b) && InBlock(c) && c.command == 5
    ensures Run(c, Encode(b)) == (After(b.command), b.content)
  {
    var n := |Encode(b)|;
    RunPrefix(c, b, n);
    assert Encode(b)[..n] == Encode(b);
    assert OutputAt(b, n) == b.content;
  }

  // ---- a whole padding phase ----

  lemma {:induction false} RunWire(c: Counters, blocks: seq<Block>)
    requires PaddingPhase(blocks) && InBlock(c) && c.command == 5
    ensures Run(c, Wire(blocks)) == (After(blocks[|blocks| - 1].command), Contents(blocks))
    decreases |blocks|
  {
    RunBlock(c, blocks[0]);
    RunConcat(c, Encode(blocks[0]), Wire(blocks[1..]));
    if |blocks| == 1 {
      assert blocks[1..] == [];
      assert Wire(blocks) == Encode(blocks[0]) + [];
      assert Contents(blocks) == blocks[0].content + [];
    } else {
      RunWire(After(COMMAND_CONTINUE), blocks[1..]);
    }
  }

  lemma RunOnto(c: Counters, a: seq<byte>, b: seq<byte>, n: nat)
    requires Reachable(c) && n <= |b|
    ensures Run(c, (a + b)[..|a| + n]).0 == Run(Run(c, a).0, b[..n]).0
  {
    TakeMore(a, b, n);
    RunConcat(c, a, b[..n]);
  }

  /** The automaton over a Continue block, and some of what follows it. */
  lemma AfterFirst(c: Counters, b: Block, w: seq<byte>, n: nat)
    requires Fits(b) && b.command == COMMAND_CONTINUE && InBlock(c) && c.command == 5 && n <= |w|
    ensures Run(c, (Encode(b) + w)[..|Encode(b)| + n]).0 == Run(After(COMMAND_CONTINUE), w[..n]).0
  {
    RunOnto(c, Encode(b), w, n);
    RunBlock(c, b);
  }

  lemma InsideBlock(c: Counters, b: Block, n: nat)
    requires Fits(b) && InBlock(c) && c.command == 5 && n < |Encode(b)| && b.command in {0, 1, 2}
    ensures InBlock(Run(c, Encode(b)[..n]).0)
  {
    RunPrefix(c, b, n);
  }

  /** Strictly inside the padding phase the unpadder is strictly inside a block. */
  lemma {:induction false} RunWirePrefix(c: Counters, blocks: seq<Block>, n: nat)
    requires PaddingPhase(blocks) && InBlock(c) && c.command == 5
    requires n < |Wire(blocks)|
    ensures InBlock(Run(c, Wire(blocks)[..n]).0)
    decreases |blocks|
  {
    var e, w := Encode(blocks[0]), Wire(blocks[1..]);
    assert |blocks| == 1 ==> w == [];
    assert Wire(blocks) == e + w;
    if n < |e| {
      TakeFirst(e, w, n);
      InsideBlock(c, blocks[0], n);
    } else {
      var k := n - |e|;
      RunWirePrefix(After(COMMAND_CONTINUE), blocks[1..], k);
      AfterFirst(c, blocks[0], w, k);
      assert (e + w)[..n] == (e + w)[..|e| + k];
    }
  }

  lemma {:induction false} RunContinue(c: Counters, blocks: seq<Block>)
    requires InBlock(c) && c.command == 5
    requires forall b <- blocks :: Fits(b) && b.command == COMMAND_CONTINUE
    ensures Run(c, Wire(blocks)) == (if blocks == [] then c else After(COMMAND_CONTINUE), Contents(blocks))
    decreases |blocks|
  {
    if blocks != [] {
      RunBlock(c, blocks[0]);
      RunConcat(c, Encode(blocks[0]), Wire(blocks[1..]));
      RunContinue(After(COMMAND_CONTINUE), blocks[1..]);
    }
  }

  // ---- any cut into buffers ----

  /** `XtlsUnpadding` folded over a list of buffers. */
  function UnpadAll(uuid: seq<byte>, c: Counters, cuts: seq<seq<byte>>): (r: (Counters, seq<byte>))
    requires Reachable(c)
    ensures Reachable(r.0)
    ensures |r.1| <= |Flatten(cuts)|
    decreases |cuts|
  {
    if cuts == [] then (c, [])
    else
      var (c1, o1) := UnpadBuffer(uuid, c, cuts[0]);
      var (c2, o2) := UnpadAll(uuid, c1, cuts[1..]);
      (c2, o1 + o2)
  }

  /** No buffer restarts the padding on its way in. */
  predicate Quiet(uuid: seq<byte>, c: Counters, cuts: seq<seq<byte>>)
    requires Reachable(c)
    decreases |cuts|
  {
    cuts == [] ||
    (!(Idle(c) && Starts(uuid, cuts[0])) && Quiet(uuid, UnpadBuffer(uuid, c, cuts[0]).0, cuts[1..]))
  }

  /** Without a restart, cutting does not matter; with one, at least 16 bytes go missing. */
  lemma {:induction false} CutsMatter(uuid: seq<byte>, c: Counters, cuts: seq<seq<byte>>)
    requires Reachable(c)
    ensures Quiet(uuid, c, cuts) ==> UnpadAll(uuid, c, cuts) == Run(c, Flatten(cuts))
    ensures !Quiet(uuid, c, cuts) ==> |UnpadAll(uuid, c, cuts).1| + 16 <= |Run(c, Flatten(cuts)).1|
    decreases |cuts|
  {
    if cuts != [] {
      RunConcat(c, cuts[0], Flatten(cuts[1..]));
      if Idle(c) && Starts(uuid, cuts[0]) {
        RunIdle(c, Flatten(cuts));
      } else {
        CutsMatter(uuid, UnpadBuffer(uuid, c, cuts[0]).0, cuts[1..]);
      }
    }
  }

  /**
   Streaming: one buffer or two, the unpadder behaves the same, exactly unless the padding ends inside
   (or right at the end of) the first buffer and the second one looks like a fresh start.
   */
  lemma Streaming(uuid: seq<byte>, c: Counters, a: seq<byte>, b: seq<byte>)
    requires InBlock(c)
    ensures var (c1, o1) := UnpadBuffer(uuid, c, a);
            var (c2, o2) := UnpadBuffer(uuid, c1, b);
            UnpadBuffer(uuid, c, a + b) == (c2, o1 + o2) <==> !(Idle(c1) && Starts(uuid, b))
  {
    RunConcat(c, a, b);
    var (c1, o1) := Run(c, a);
    if Idle(c1) && Starts(uuid, b) {
      RunIdle(c1, b);
      assert |Run(c1.(command := 5), b[16..]).1| < |b|;
    }
  }

  /** No buffer that comes when the padding is over has 21 bytes or more and the identifier at its front. */
  ghost predicate NoFreshStart(uuid: seq<byte>, cuts: seq<seq<byte>>, end: nat) {
    forall k :: 0 <= k < |cuts| && |Flatten(cuts[..k])| >= end ==> !(|cuts[k]| >= 21 && cuts[k][..16] == uuid)
  }

  lemma {:induction false} QuietByPosition(uuid: seq<byte>, c: Counters, s: seq<byte>, done: nat, end: nat,
                                           cuts: seq<seq<byte>>)
    requires Reachable(c) && done <= |s| && s[done..] == Flatten(cuts)
    requires forall n :: done <= n <= |s| ==> (Idle(Run(c, s[done..n]).0) <==> n >= end)
    ensures Quiet(uuid, c, cuts) <==>
            forall k :: 0 <= k < |cuts| && done + |Flatten(cuts[..k])| >= end ==> !Starts(uuid, cuts[k])
    decreases |cuts|
  {
    if cuts != [] {
      assert cuts[..0] == [];
      assert s[done..done] == [];
      assert Idle(c) <==> done >= end;
      var next := done + |cuts[0]|;
      forall k | 1 <= k < |cuts|
        ensures done + |Flatten(cuts[..k])| == next + |Flatten(cuts[1..][..k - 1])|
      {
        assert cuts[..k][0] == cuts[0] && cuts[..k][1..] == cuts[1..][..k - 1];
      }
      if !(Idle(c) && Starts(uuid, cuts[0])) {
        var c1 := Run(c, cuts[0]).0;
        SplitSuffix(s, done, cuts[0], Flatten(cuts[1..]));
        forall n | next <= n <= |s|
          ensures Idle(Run(c1, s[next..n]).0) <==> n >= end
        {
          RunConcat(c, cuts[0], s[next..n]);
          JoinSlices(s, done, next, n);
        }
        QuietByPosition(uuid, c1, s, next, end, cuts[1..]);
        assert forall k :: 0 <= k < |cuts| - 1 ==> cuts[1..][k] == cuts[k + 1];
      }
    }
  }

  const FIRST := INITIAL.(command := 5)

  lemma IdleFromTheEndOn(blocks: seq<Block>, raw: seq<byte>, n: nat)
    requires PaddingPhase(blocks) && n <= |Wire(blocks)| + |raw|
    ensures Idle(Run(FIRST, (Wire(blocks) + raw)[..n]).0) <==> n >= |Wire(blocks)|
  {
    var w := Wire(blocks);
    if n < |w| {
      RunWirePrefix(FIRST, blocks, n);
      assert (w + raw)[..n] == w[..n];
    } else {
      var m := n - |w|;
      assert (w + raw)[..n] == w + raw[..m];
      RunWire(FIRST, blocks);
      RunConcat(FIRST, w, raw[..m]);
      RunIdle(Run(FIRST, w).0, raw[..m]);
    }
  }

  /** The buffers without the identifier at the front of the first one. */
  function Strip(cuts: seq<seq<byte>>): seq<seq<byte>>
    requires cuts != [] && |cuts[0]| >= 16
  {
    [cuts[0][16..]] + cuts[1..]
  }

  lemma StripFirst(uuid: seq<byte>, cuts: seq<seq<byte>>, stream: seq<byte>)
    requires |uuid| == 16 && cuts != [] && |cuts[0]| >= 21 && Flatten(cuts) == uuid + stream
    ensures Flatten(Strip(cuts)) == stream
    ensures UnpadAll(uuid, INITIAL, cuts) == UnpadAll(uuid, FIRST, Strip(cuts))
  {
    var bare := Strip(cuts);
    assert cuts[0][..16] == Flatten(cuts)[..16] == uuid;
    assert bare[1..] == cuts[1..];
    assert Flatten(bare) == cuts[0][16..] + Flatten(cuts[1..]) == Flatten(cuts)[16..];
  }

  lemma SamePositions(uuid: seq<byte>, cuts: seq<seq<byte>>, end: nat)
    requires cuts != [] && |cuts[0]| >= 16 && end > 0
    ensures NoFreshStart(uuid, cuts, 16 + end) <==> NoFreshStart(uuid, Strip(cuts), end)
  {
    var bare := Strip(cuts);
    forall k | 1 <= k < |cuts|
      ensures cuts[k] == bare[k] && |Flatten(cuts[..k])| == 16 + |Flatten(bare[..k])|
    {
      assert cuts[..k][1..] == bare[..k][1..];
      assert cuts[..k][0] == cuts[0] && bare[..k][0] == cuts[0][16..];
    }
    assert cuts[..0] == [] && bare[..0] == [];
  }

  /** The fold recovers `expected` and ends in `state`, unless a late buffer looks like a fresh start. */
  ghost predicate Recovers(uuid: seq<byte>, r: (Counters, seq<byte>), cuts: seq<seq<byte>>, end: nat, last: byte,
                           expected: seq<byte>)
  {
    && (r.1 == expected <==> NoFreshStart(uuid, cuts, end))
    && (NoFreshStart(uuid, cuts, end) ==> r.0 == After(last))
  }

  /** The first buffer carries the identifier; after it the fold is that of the bare stream. */
  lemma FirstBuffer(uuid: seq<byte>, stream: seq<byte>, cuts: seq<seq<byte>>, end: nat) returns (bare: seq<seq<byte>>)
    requires |uuid| == 16 && cuts != [] && |cuts[0]| >= 21 && end > 0
    requires Flatten(cuts) == uuid + stream
    ensures Flatten(bare) == stream
    ensures UnpadAll(uuid, INITIAL, cuts) == UnpadAll(uuid, FIRST, bare)
    ensures NoFreshStart(uuid, cuts, 16 + end) <==> NoFreshStart(uuid, bare, end)
  {
    bare := Strip(cuts);
    SamePositions(uuid, cuts, end);
    StripFirst(uuid, cuts, stream);
  }

  lemma WholeStream(blocks: seq<Block>, raw: seq<byte>)
    requires PaddingPhase(blocks)
    ensures Run(FIRST, Wire(blocks) + raw) == (After(blocks[|blocks| - 1].command), Contents(blocks) + raw)
  {
    RunWire(FIRST, blocks);
    RunConcat(FIRST, Wire(blocks), raw);
    RunIdle(Run(FIRST, Wire(blocks)).0, raw);
  }

  lemma QuietFromFirst(uuid: seq<byte>, blocks: seq<Block>, raw: seq<byte>, bare: seq<seq<byte>>)
    requires PaddingPhase(blocks) && Flatten(bare) == Wire(blocks) + raw
    ensures Quiet(uuid, FIRST, bare) <==> NoFreshStart(uuid, bare, |Wire(blocks)|)
  {
    var s := Wire(blocks) + raw;
    forall n | 0 <= n <= |s|
      ensures Idle(Run(FIRST, s[0..n]).0) <==> n >= |Wire(blocks)|
    {
      IdleFromTheEndOn(blocks, raw, n);
      assert s[0..n] == s[..n];
    }
    QuietByPosition(uuid, FIRST, s, 0, |Wire(blocks)|, bare);
  }

  lemma RoundTripBare(uuid: seq<byte>, blocks: seq<Block>, raw: seq<byte>, bare: seq<seq<byte>>)
    requires PaddingPhase(blocks) && Flatten(bare) == Wire(blocks) + raw
    ensures Recovers(uuid, UnpadAll(uuid, FIRST, bare), bare, |Wire(blocks)|, blocks[|blocks| - 1].command,
                     Contents(blocks) + raw)
  {
    CutsMatter(uuid, FIRST, bare);
    WholeStream(blocks, raw);
    QuietFromFirst(uuid, blocks, raw, bare);
  }

  lemma WireNotEmpty(blocks: seq<Block>)
    requires PaddingPhase(blocks)
    ensures |Wire(blocks)| >= 5
  {}

  /**
   Codec round trip. A padding phase followed by raw bytes, cut anywhere after the first 21 bytes, is
   recovered exactly if and only if no buffer that arrives after the phase looks like a fresh start.
   */
  lemma RoundTrip(uuid: seq<byte>, blocks: seq<Block>, raw: seq<byte>, cuts: seq<seq<byte>>)
    requires |uuid| == 16 && PaddingPhase(blocks)
    requires cuts != [] && |cuts[0]| >= 21
    requires Flatten(cuts) == uuid + (Wire(blocks) + raw)
    ensures Recovers(uuid, UnpadAll(uuid, INITIAL, cuts), cuts, 16 + |Wire(blocks)|, blocks[|blocks| - 1].command,
                     Contents(blocks) + raw)
  {
    WireNotEmpty(blocks);
    var bare := FirstBuffer(uuid, Wire(blocks) + raw, cuts, |Wire(blocks)|);
    RoundTripBare(uuid, blocks, raw, bare);
  }

  lemma NothingAfterTheEnd(uuid: seq<byte>, cuts: seq<seq<byte>>)
    ensures NoFreshStart(uuid, cuts, |Flatten(cuts)|)
  {
    forall k | 0 <= k < |cuts| && |Flatten(cuts[..k])| >= |Flatten(cuts)|
      ensures !Starts(uuid, cuts[k])
    {
      FlattenAppend(cuts[..k], cuts[k..]);
      assert cuts == cuts[..k] + cuts[k..];
      assert |cuts[k]| <= |Flatten(cuts[k..])|;
    }
  }

  /** With nothing after the padding phase, every cut is recovered. */
  lemma RoundTripPadded(uuid: seq<byte>, blocks: seq<Block>, cuts: seq<seq<byte>>)
    requires |uuid| == 16 && PaddingPhase(blocks)
    requires cuts != [] && |cuts[0]| >= 21
    requires Flatten(cuts) == uuid + Wire(blocks)
    ensures UnpadAll(uuid, INITIAL, cuts) == (After(blocks[|blocks| - 1].command), Contents(blocks))
  {
    assert Wire(blocks) + [] == Wire(blocks);
    assert Contents(blocks) + [] == Contents(blocks);
    NothingAfterTheEnd(uuid, cuts);
    RoundTrip(uuid, blocks, [], cuts);
  }
}
