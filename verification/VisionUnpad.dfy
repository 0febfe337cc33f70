/**
 The reading half of the Vision padding protocol: `XtlsUnpadding`.

 `Step` and `Run` are the protocol as an automaton that eats one byte at a time;
 `XtlsUnpadding` is the code, which eats runs of content and padding at once.
 */
module VisionUnpad {
  import opened Bytes
  import opened Sequences

  const COMMAND_CONTINUE: byte := 0
  const COMMAND_END: byte := 1
  const COMMAND_DIRECT: byte := 2

  /** The four counters of one reading direction. */
  datatype Counters = Counters(command: int, content: int, padding: int, current: int)

  const INITIAL := Counters(-1, -1, -1, 0)

  predicate Idle(c: Counters) {
    c.command == -1 && c.content == -1 && c.padding == -1
  }

  /** Inside a padding block: `command` header bytes are outstanding, or content or padding is. */
  predicate InBlock(c: Counters) {
    && 0 <= c.current < 256
    && (c.command in {4, 5} ==> -1 <= c.content <= 0 && -1 <= c.padding <= 0)
    && (c.command == 3 ==> 0 <= c.content < 0x10000 && c.content % 256 == 0 && -1 <= c.padding <= 0)
    && (c.command == 2 ==> 0 <= c.content < 0x10000 && -1 <= c.padding <= 0)
    && (c.command == 1 ==> 0 <= c.content < 0x10000 && 0 <= c.padding < 0x10000 && c.padding % 256 == 0)
    && (c.command == 0 ==> 0 <= c.content < 0x10000 && 0 <= c.padding < 0x10000 && c.content + c.padding > 0)
    && 0 <= c.command <= 5
  }

  predicate Reachable(c: Counters) {
    (Idle(c) && 0 <= c.current < 256) || InBlock(c)
  }

  /** The test at the bottom of the loop: a finished block starts the next one, or ends the padding. */
  function Settle(c: Counters): Counters {
    if c.command <= 0 && c.content <= 0 && c.padding <= 0 then
      if c.current == 0 then c.(command := 5) else Counters(-1, -1, -1, c.current)
    else
      c
  }

  function Step(c: Counters, b: byte): (r: (Counters, seq<byte>))
    requires InBlock(c)
    ensures Reachable(r.0)
    ensures |r.1| <= 1
    ensures c.command > 0 ==> r.1 == []
  {
    if c.command == 5 then (Settle(c.(command := 4, current := b as int)), [])
    else if c.command == 4 then (Settle(c.(command := 3, content := b as int * 256)), [])
    else if c.command == 3 then (Settle(c.(command := 2, content := c.content + b as int)), [])
    else if c.command == 2 then (Settle(c.(command := 1, padding := b as int * 256)), [])
    else if c.command == 1 then (Settle(c.(command := 0, padding := c.padding + b as int)), [])
    else if c.content > 0 then (Settle(c.(content := c.content - 1)), [b])
    else (Settle(c.(padding := c.padding - 1)), [])
  }

  /** The automaton over a byte string. Once the padding has ended, bytes pass unchanged. */
  function Run(c: Counters, s: seq<byte>): (r: (Counters, seq<byte>))
    requires Reachable(c)
    ensures Reachable(r.0)
    ensures |r.1| <= |s|
    ensures c.command > 0 && s != [] ==> |r.1| < |s|
    decreases |s|
  {
    if s == [] then (c, [])
    else if Idle(c) then (c, s)
    else
      var (c1, o1) := Step(c, s[0]);
      var (c2, o2) := Run(c1, s[1..]);
      (c2, o1 + o2)
  }

  /** A buffer that (re)starts the padding when it arrives in the idle state. */
  predicate Starts(uuid: seq<byte>, b: seq<byte>) {
    |b| >= 21 && uuid == b[..16]
  }

  /** What `XtlsUnpadding` does to one buffer. */
  function UnpadBuffer(uuid: seq<byte>, c: Counters, b: seq<byte>): (r: (Counters, seq<byte>))
    requires Reachable(c)
    ensures Reachable(r.0)
    ensures |r.1| <= |b|
  {
    if Idle(c) && Starts(uuid, b) then Run(c.(command := 5), b[16..]) else Run(c, b)
  }

  // ---- the bulk moves of the code agree with the automaton ----

  lemma {:induction false} RunConcat(c: Counters, a: seq<byte>, b: seq<byte>)
    requires Reachable(c)
    ensures var (c1, o1) := Run(c, a); var (c2, o2) := Run(c1, b);
            Run(c, a + b) == (c2, o1 + o2)
    decreases |a|
  {
    if a == [] {
      assert a + b == b;
      assert [] + Run(c, b).1 == Run(c, b).1;
    } else if Idle(c) {
      assert b == [] ==> a + b == a + [];
    } else {
      var (c1, o1) := Step(c, a[0]);
      RunConcat(c1, a[1..], b);
      assert (a + b)[1..] == a[1..] + b;
      var (c2, o2) := Run(c1, a[1..]);
      Assoc(o1, o2, Run(c2, b).1);
    }
  }

  lemma {:induction false} RunContent(c: Counters, s: seq<byte>)
    requires InBlock(c) && c.command == 0 && 0 < |s| <= c.content
    ensures Run(c, s) == (Settle(c.(content := c.content - |s|)), s)
    decreases |s|
  {
    var (c1, o1) := Step(c, s[0]);
    if |s| > 1 {
      RunContent(c1, s[1..]);
    } else {
      assert s[1..] == [];
    }
    assert s == [s[0]] + s[1..];
  }

  lemma {:induction false} RunPadding(c: Counters, s: seq<byte>)
    requires InBlock(c) && c.command == 0 && c.content == 0 && 0 < |s| <= c.padding
    ensures Run(c, s) == (Settle(c.(padding := c.padding - |s|)), [])
    decreases |s|
  {
    var (c1, o1) := Step(c, s[0]);
    if |s| > 1 {
      RunPadding(c1, s[1..]);
    } else {
      assert s[1..] == [];
    }
  }

  lemma RunContentThen(c: Counters, s: seq<byte>, n: nat)
    requires InBlock(c) && c.command == 0 && 0 < n <= c.content && n <= |s|
    ensures var (c2, o2) := Run(Settle(c.(content := c.content - n)), s[n..]);
            Run(c, s) == (c2, s[..n] + o2)
  {
    RunContent(c, s[..n]);
    RunConcat(c, s[..n], s[n..]);
    assert s == s[..n] + s[n..];
  }

  lemma RunPaddingThen(c: Counters, s: seq<byte>, n: nat)
    requires InBlock(c) && c.command == 0 && c.content == 0 && 0 < n <= c.padding && n <= |s|
    ensures Run(c, s) == Run(Settle(c.(padding := c.padding - n)), s[n..])
  {
    RunPadding(c, s[..n]);
    assert forall o: seq<byte> :: [] + o == o;
    RunConcat(c, s[..n], s[n..]);
    assert s == s[..n] + s[n..];
  }

  lemma RunHeader(c: Counters, s: seq<byte>)
    requires InBlock(c) && c.command > 0 && s != []
    ensures Run(c, s) == Run(Step(c, s[0]).0, s[1..])
  {
    assert forall o: seq<byte> :: [] + o == o;
  }

  lemma RunIdle(c: Counters, s: seq<byte>)
    requires Reachable(c) && Idle(c)
    ensures Run(c, s) == (c, s)
  {}

  // ---- the code ----

  /** One direction of `TrafficState`: its reading half and its writing half, updated in place. */
  class LinkState {
    var withinPaddingBuffers: bool
    var readerDirectCopy: bool
    var remainingCommand: int
    var remainingContent: int
    var remainingPadding: int
    var currentCommand: int
    var isPadding: bool
    var writerDirectCopy: bool

    constructor ()
      ensures withinPaddingBuffers && !readerDirectCopy && Counts() == INITIAL
      ensures isPadding && !writerDirectCopy
    {
      withinPaddingBuffers, readerDirectCopy := true, false;
      remainingCommand, remainingContent, remainingPadding := -1, -1, -1;
      currentCommand := 0;
      isPadding, writerDirectCopy := true, false;
    }

    function Counts(): Counters
      reads this
    {
      Counters(remainingCommand, remainingContent, remainingPadding, currentCommand)
    }

    /** One byte of the block header: command, content length, padding length. */
    method ReadHeaderByte(data: byte)
      requires InBlock(Counts()) && remainingCommand > 0
      modifies `remainingCommand, `remainingContent, `remainingPadding, `currentCommand
      ensures Settle(Counts()) == Step(old(Counts()), data).0
    {
      match remainingCommand {
        case 5 => currentCommand := data as int;
        case 4 => remainingContent := data as int * 256;
        case 3 => remainingContent := remainingContent + data as int;
        case 2 => remainingPadding := data as int * 256;
        case _ => remainingPadding := remainingPadding + data as int;
      }
      remainingCommand := remainingCommand - 1;
    }

    /** The test for the end of a block, and what it does to the counters. */
    method CheckBlockDone() returns (ended: bool)
      modifies `remainingCommand, `remainingContent, `remainingPadding
      ensures Counts() == Settle(old(Counts()))
      ensures ended <==> old(remainingCommand <= 0 && remainingContent <= 0 && remainingPadding <= 0
                             && currentCommand != 0)
    {
      ended := false;
      if remainingCommand <= 0 && remainingContent <= 0 && remainingPadding <= 0 {
        if currentCommand == 0 {
          remainingCommand := 5;
        } else {
          remainingCommand, remainingContent, remainingPadding := -1, -1, -1;
          ended := true;
        }
      }
    }

    /** One turn of the unpadding loop: eats part of `b` and returns the content it found. */
    method ConsumeSome(b: seq<byte>) returns (data: seq<byte>, rest: seq<byte>, ended: bool)
      requires InBlock(Counts()) && b != []
      modifies `remainingCommand, `remainingContent, `remainingPadding, `currentCommand
      ensures |rest| < |b|
      ensures if ended then Reachable(Counts()) && Idle(Counts()) else InBlock(Counts())
      ensures var (c, o) := Run(Counts(), rest); Run(old(Counts()), b) == (c, data + o)
    {
      ghost var c := Counts();
      data := [];
      if remainingCommand > 0 {
        RunHeader(c, b);
        ReadHeaderByte(b[0]);
        rest := b[1..];
      } else if remainingContent > 0 {
        var n := if |b| < remainingContent then |b| else remainingContent;
        RunContentThen(c, b, n);
        data, rest := b[..n], b[n..];
        remainingContent := remainingContent - n;
      } else {
        var n := if |b| < remainingPadding then |b| else remainingPadding;
        RunPaddingThen(c, b, n);
        rest := b[n..];
        remainingPadding := remainingPadding - n;
      }
      ended := CheckBlockDone();
      assert data == [] ==> data + Run(Counts(), rest).1 == Run(Counts(), rest).1;
    }

    /** Removes the padding from one buffer. */
    method XtlsUnpadding(b: seq<byte>, uuid: seq<byte>) returns (newbuffer: seq<byte>)
      requires Reachable(Counts())
      modifies `remainingCommand, `remainingContent, `remainingPadding, `currentCommand
      ensures (Counts(), newbuffer) == UnpadBuffer(uuid, old(Counts()), b)
    {
      var rest := b;
      if remainingCommand == -1 && remainingContent == -1 && remainingPadding == -1 {
        if |b| >= 21 && uuid == b[..16] {
          rest := b[16..];
          remainingCommand := 5;
        } else {
          RunIdle(Counts(), b);
          return b;
        }
      }
      ghost var goal := Run(Counts(), rest);
      newbuffer := [];
      assert goal.1 == [] + goal.1;
      while |rest| > 0
        invariant InBlock(Counts())
        invariant var (c, o) := Run(Counts(), rest); goal == (c, newbuffer + o)
        decreases |rest|
      {
        ghost var before := newbuffer;
        var data, left, ended := ConsumeSome(rest);
        newbuffer, rest := newbuffer + data, left;
        Assoc(before, data, Run(Counts(), rest).1);
        if ended {
          RunIdle(Counts(), rest);
          assert rest == [] ==> newbuffer + rest == newbuffer;
          if |rest| > 0 {
            newbuffer := newbuffer + rest;
          }
          return;
        }
      }
      assert newbuffer + [] == newbuffer;
    }
  }
}
