/**
 `TrafficState` and `XtlsFilterTls`: recognising a TLS 1.3 handshake in the proxied traffic
 (ServerHello of sections 4.1.3 and 4.2.1 of RFC 8446).
 */
module TlsFilter {
  import opened Bytes
  import opened Sequences
  import opened VisionUnpad

  const SUPPORTED_VERSIONS: seq<byte> := [0x00, 0x2b, 0x00, 0x02, 0x03, 0x04]
  const CLIENT_HANDSHAKE_START: seq<byte> := [0x16, 0x03]
  const SERVER_HANDSHAKE_START: seq<byte> := [0x16, 0x03, 0x03]
  const CLIENT_HELLO: byte := 1
  const SERVER_HELLO: byte := 2

  /** A possibly missing buffer: its bytes, and what its backing array holds beyond them. */
  datatype Buffer = NoBuffer | Buffer(bytes: seq<byte>, beyond: seq<byte>)

  function Data(b: Buffer): seq<byte> {
    if b.NoBuffer? then [] else b.bytes
  }

  function AllData(mb: seq<Buffer>): seq<byte> {
    if mb == [] then [] else Data(mb[0]) + AllData(mb[1..])
  }

  /**
   The backing array reaches as far as the cipher suite is looked up, which with a long session id is
   beyond the bytes of the buffer; standard buffers of 8192 bytes always do.
   */
  predicate Backed(b: Buffer) {
    b.Buffer? && |b.bytes| >= 79 ==> |b.bytes| + |b.beyond| >= 46 + b.bytes[43] as nat
  }

  predicate AllBacked(mb: seq<Buffer>) {
    forall b <- mb :: Backed(b)
  }

  datatype Filter = Filter(packets: int, enableXtls: bool, isTLS12orAbove: bool, isTLS: bool,
                           cipher: nat, serverHello: int)

  const FRESH := Filter(8, false, false, false, 0, -1)

  predicate Contains(s: seq<byte>, pattern: seq<byte>) {
    exists i | 0 <= i <= |s| :: OccursAt(s, pattern, i)
  }

  /** The dictionary of TLS 1.3 suites without its last entry, TLS_AES_128_CCM_8_SHA256. */
  predicate AcceptedSuite(cipher: nat) {
    0x1301 <= cipher <= 0x1304
  }

  predicate IsServerHello(b: seq<byte>) {
    |b| >= 6 && b[..3] == SERVER_HANDSHAKE_START && b[5] == SERVER_HELLO
  }

  predicate IsClientHello(b: seq<byte>) {
    |b| >= 6 && b[..2] == CLIENT_HANDSHAKE_START && b[5] == CLIENT_HELLO
  }

  function RecordLength(b: seq<byte>): nat
    requires |b| >= 6
  {
    b[3] as nat * 256 + b[4] as nat + 5
  }

  function CipherOf(b: Buffer): (cipher: nat)
    requires b.Buffer? && |b.bytes| >= 79 && Backed(b)
    ensures cipher < 0x10000
  {
    var memory := b.bytes + b.beyond;
    var at := 44 + b.bytes[43] as nat;
    memory[at] as nat * 256 + memory[at + 1] as nat
  }

  /** The hello at the front of a packet, if there is one. */
  function NoteHello(f: Filter, b: Buffer): Filter
    requires b.Buffer? && Backed(b)
  {
    if IsServerHello(b.bytes) then
      f.(serverHello := RecordLength(b.bytes), isTLS12orAbove := true, isTLS := true,
         cipher := if |b.bytes| >= 79 && RecordLength(b.bytes) >= 79 then CipherOf(b) else f.cipher)
    else if IsClientHello(b.bytes) then
      f.(isTLS := true)
    else
      f
  }

  /** What is left of a ServerHello; the flag says that the filter stops looking at this call's packets. */
  function FollowHello(g: Filter, b: Buffer): (Filter, bool)
    requires b.Buffer? && Backed(b)
  {
    if g.serverHello <= 0 then (g, false)
    else
      var end := if g.serverHello > |b.bytes| then |b.bytes| else g.serverHello;
      var h := g.(serverHello := g.serverHello - |b.bytes|);
      if Contains(b.bytes[..end], SUPPORTED_VERSIONS) then
        (h.(packets := 0, enableXtls := h.enableXtls || AcceptedSuite(h.cipher)), true)
      else if h.serverHello <= 0 then
        (h.(packets := 0), true)
      else
        (h, false)
  }

  /** One packet. */
  function FilterOne(f: Filter, b: Buffer): (Filter, bool)
    requires Backed(b)
  {
    if b.NoBuffer? then (f, false)
    else FollowHello(NoteHello(f.(packets := f.packets - 1), b), b)
  }

  function FilterAll(f: Filter, mb: seq<Buffer>): Filter
    requires AllBacked(mb)
    decreases |mb|
  {
    if mb == [] then f
    else
      var (g, stop) := FilterOne(f, mb[0]);
      if stop then g else FilterAll(g, mb[1..])
  }

  /** Every caller filters only while packets are left to look at. */
  function Gated(f: Filter, mb: seq<Buffer>): Filter
    requires AllBacked(mb)
  {
    if f.packets > 0 then FilterAll(f, mb) else f
  }

  // ---- what every run keeps ----

  predicate FilterInvariant(f: Filter) {
    && (f.enableXtls ==> f.isTLS12orAbove)
    && (f.isTLS12orAbove ==> f.isTLS)
    && (f.enableXtls ==> AcceptedSuite(f.cipher) && f.packets <= 0)
    && (f.serverHello > 0 ==> f.isTLS12orAbove)
  }

  lemma {:induction false} FilterAllKeeps(f: Filter, mb: seq<Buffer>)
    requires AllBacked(mb) && FilterInvariant(f) && !f.enableXtls
    ensures FilterInvariant(FilterAll(f, mb))
    decreases |mb|
  {
    if mb != [] {
      var (g, stop) := FilterOne(f, mb[0]);
      if !stop {
        FilterAllKeeps(g, mb[1..]);
      }
    }
  }

  // ---- where the filter stops, read off the packets ----

  /** How many bytes of a ServerHello are outstanding once packet `b` has come, `h` having been before. */
  function Window(h: int, b: Buffer): int {
    if IsServerHello(Data(b)) then RecordLength(Data(b)) else h
  }

  /** The packet ends the ServerHello, or shows TLS 1.3 in it. */
  predicate Stops(h: int, b: Buffer) {
    Window(h, b) > 0 && (Window(h, b) <= |Data(b)| || Contains(Data(b), SUPPORTED_VERSIONS))
  }

  /** The part of the packet that belongs to the ServerHello shows TLS 1.3. */
  predicate ShowsTls13(h: int, b: Buffer) {
    var w := Window(h, b);
    w > 0 && Contains(Data(b)[..if w < |Data(b)| then w else |Data(b)|], SUPPORTED_VERSIONS)
  }

  /** What a packet leaves outstanding. */
  function Left(h: int, b: Buffer): int {
    var w := Window(h, b);
    if w > 0 then w - |Data(b)| else w
  }

  function Outstanding(h: int, mb: seq<Buffer>): int
    decreases |mb|
  {
    if mb == [] then h else Outstanding(Left(h, mb[0]), mb[1..])
  }

  /** The first packet that stops the filter, or the number of packets. */
  function FirstStop(h: int, mb: seq<Buffer>): (k: nat)
    ensures k <= |mb|
    decreases |mb|
  {
    if mb == [] || Stops(h, mb[0]) then 0 else 1 + FirstStop(Left(h, mb[0]), mb[1..])
  }

  /** The packets that are not missing. */
  function Present(mb: seq<Buffer>): nat {
    if mb == [] then 0 else (if mb[0].NoBuffer? then 0 else 1) + Present(mb[1..])
  }

  predicate NamesSuite(b: Buffer) {
    |Data(b)| >= 79 && IsServerHello(Data(b)) && RecordLength(Data(b)) >= 79
  }

  function Suite(cipher: nat, b: Buffer): nat
    requires Backed(b)
  {
    if NamesSuite(b) then CipherOf(b) else cipher
  }

  /** The cipher suite of the last ServerHello that is long enough to name one. */
  function LastSuite(cipher: nat, mb: seq<Buffer>): nat
    requires AllBacked(mb)
    decreases |mb|
  {
    if mb == [] then cipher else LastSuite(Suite(cipher, mb[0]), mb[1..])
  }

  /** One packet, in terms of its bytes. */
  lemma OnePacket(f: Filter, b: Buffer)
    requires Backed(b)
    ensures var (g, stop) := FilterOne(f, b);
            && stop == Stops(f.serverHello, b)
            && g.packets == (if stop then 0 else f.packets - Present([b]))
            && g.cipher == Suite(f.cipher, b)
            && g.enableXtls == (f.enableXtls || (ShowsTls13(f.serverHello, b) && AcceptedSuite(g.cipher)))
            && (!stop ==> g.serverHello == Left(f.serverHello, b))
  {
    assert [b][1..] == [];
    var w := Window(f.serverHello, b);
    assert w >= |Data(b)| ==> Data(b)[..|Data(b)|] == Data(b);
  }

  /** A packet makes the count rise exactly if the count is below zero and the packet stops the filter. */
  lemma {:induction false} PacketsWithinACall(f: Filter, b: Buffer)
    requires Backed(b)
    ensures FilterOne(f, b).0.packets > f.packets <==> f.packets < 0 && Stops(f.serverHello, b)
  {
    OnePacket(f, b);
  }

  /** A call in which no packet stops the filter. */
  lemma {:induction false} Unstopped(f: Filter, mb: seq<Buffer>)
    requires AllBacked(mb) && FirstStop(f.serverHello, mb) == |mb|
    ensures var g := FilterAll(f, mb);
            && g.packets == f.packets - Present(mb) && g.serverHello == Outstanding(f.serverHello, mb)
            && g.cipher == LastSuite(f.cipher, mb) && g.enableXtls == f.enableXtls
    decreases |mb|
  {
    if mb != [] {
      OnePacket(f, mb[0]);
      NoStopNoTls13(f.serverHello, mb[0]);
      assert [mb[0]][1..] == [];
      Unstopped(FilterOne(f, mb[0]).0, mb[1..]);
    }
  }

  lemma NoStopNoTls13(h: int, b: Buffer)
    ensures ShowsTls13(h, b) ==> Stops(h, b)
  {
    var w := Window(h, b);
    assert w >= |Data(b)| ==> Data(b)[..|Data(b)|] == Data(b);
  }

  /** Packets that do not stop the filter leave it to the others. */
  lemma {:induction false} UnstoppedThen(f: Filter, a: seq<Buffer>, b: seq<Buffer>)
    requires AllBacked(a) && AllBacked(b) && AllBacked(a + b) && FirstStop(f.serverHello, a) == |a|
    ensures FilterAll(f, a + b) == FilterAll(FilterAll(f, a), b)
    decreases |a|
  {
    if a == [] {
      assert a + b == b;
    } else {
      OnePacket(f, a[0]);
      assert (a + b)[1..] == a[1..] + b;
      UnstoppedThen(FilterOne(f, a[0]).0, a[1..], b);
    }
  }

  lemma {:induction false} FirstStopAppend(h: int, a: seq<Buffer>, b: seq<Buffer>)
    ensures FirstStop(h, a + b)
         == if FirstStop(h, a) < |a| then FirstStop(h, a) else |a| + FirstStop(Outstanding(h, a), b)
    decreases |a|
  {
    if a == [] {
      assert a + b == b;
    } else {
      assert (a + b)[1..] == a[1..] + b;
      if !Stops(h, a[0]) {
        FirstStopAppend(Left(h, a[0]), a[1..], b);
      }
    }
  }

  lemma {:induction false} OutstandingAppend(h: int, a: seq<Buffer>, b: seq<Buffer>)
    ensures Outstanding(h, a + b) == Outstanding(Outstanding(h, a), b)
    decreases |a|
  {
    if a == [] {
      assert a + b == b;
    } else {
      assert (a + b)[1..] == a[1..] + b;
      OutstandingAppend(Left(h, a[0]), a[1..], b);
    }
  }

  lemma {:induction false} PresentAppend(a: seq<Buffer>, b: seq<Buffer>)
    ensures Present(a + b) == Present(a) + Present(b)
  {
    if a == [] {
      assert a + b == b;
    } else {
      assert (a + b)[1..] == a[1..] + b;
      PresentAppend(a[1..], b);
    }
  }

  lemma {:induction false} LastSuiteAppend(cipher: nat, a: seq<Buffer>, b: seq<Buffer>)
    requires AllBacked(a) && AllBacked(b)
    ensures AllBacked(a + b) && LastSuite(cipher, a + b) == LastSuite(LastSuite(cipher, a), b)
    decreases |a|
  {
    if a == [] {
      assert a + b == b;
    } else {
      assert (a + b)[1..] == a[1..] + b;
      LastSuiteAppend(Suite(cipher, a[0]), a[1..], b);
    }
  }

  /** The packet that stops the filter shows TLS 1.3, and the last ServerHello names an accepted suite. */
  predicate EndsInXtls(h: int, cipher: nat, mb: seq<Buffer>)
    requires AllBacked(mb)
  {
    var k := FirstStop(h, mb);
    k < |mb| && ShowsTls13(Outstanding(h, mb[..k]), mb[k]) && AcceptedSuite(LastSuite(cipher, mb[..k + 1]))
  }

  /** A call whose packet `b`, after those in `a`, is the first that stops the filter. */
  lemma StoppedOutcome(f: Filter, a: seq<Buffer>, b: Buffer, rest: seq<Buffer>)
    requires AllBacked(a) && Backed(b) && AllBacked([b] + rest) && AllBacked(a + ([b] + rest))
    requires FirstStop(f.serverHello, a) == |a| && Stops(Outstanding(f.serverHello, a), b)
    ensures AllBacked(a + [b])
    ensures var (g, cipher) := (FilterAll(f, a + ([b] + rest)), LastSuite(f.cipher, a + [b]));
            && g.packets == 0 && g.cipher == cipher
            && (g.enableXtls <==>
                  f.enableXtls || (ShowsTls13(Outstanding(f.serverHello, a), b) && AcceptedSuite(cipher)))
  {
    Unstopped(f, a);
    UnstoppedThen(f, a, [b] + rest);
    OnePacket(FilterAll(f, a), b);
    LastSuiteAppend(f.cipher, a, [b]);
    assert [b][1..] == [] && ([b] + rest)[0] == b;
  }

  /** One call, however its ServerHello is spread over packets. */
  lemma CallOutcome(f: Filter, mb: seq<Buffer>)
    requires AllBacked(mb)
    ensures var (g, k) := (FilterAll(f, mb), FirstStop(f.serverHello, mb));
            && (g.enableXtls <==> f.enableXtls || EndsInXtls(f.serverHello, f.cipher, mb))
            && (k < |mb| ==> g.packets == 0 && g.cipher == LastSuite(f.cipher, mb[..k + 1]))
  {
    var k := FirstStop(f.serverHello, mb);
    if k == |mb| {
      Unstopped(f, mb);
    } else {
      StopSplit(f.serverHello, mb);
      SplitAround(mb, k);
      StoppedOutcome(f, mb[..k], mb[k], mb[k + 1..]);
    }
  }

  lemma StopSplit(h: int, mb: seq<Buffer>)
    requires FirstStop(h, mb) < |mb|
    ensures var k := FirstStop(h, mb);
            FirstStop(h, mb[..k]) == k && Stops(Outstanding(h, mb[..k]), mb[k])
  {
    var k := FirstStop(h, mb);
    FirstStopAppend(h, mb[..k], mb[k..]);
    assert mb == mb[..k] + mb[k..];
    FirstStopIsFirst(h, mb);
  }

  lemma {:induction false} FirstStopIsFirst(h: int, mb: seq<Buffer>)
    ensures var k := FirstStop(h, mb);
            FirstStop(h, mb[..k]) == k && (k < |mb| ==> Stops(Outstanding(h, mb[..k]), mb[k]))
    decreases |mb|
  {
    if mb != [] && !Stops(h, mb[0]) {
      FirstStopIsFirst(Left(h, mb[0]), mb[1..]);
      var k := FirstStop(h, mb);
      assert mb[..k][1..] == mb[1..][..k - 1];
    }
  }

  lemma {:induction false} FirstStopPrefix(h: int, mb: seq<Buffer>, n: nat)
    requires n <= |mb|
    ensures FirstStop(h, mb[..n]) == if n <= FirstStop(h, mb) then n else FirstStop(h, mb)
    decreases n
  {
    if n > 0 && !Stops(h, mb[0]) {
      FirstStopPrefix(Left(h, mb[0]), mb[1..], n - 1);
      assert mb[..n][1..] == mb[1..][..n - 1];
    }
  }

  /** The count after the first `n` packets of a call. */
  function PacketsAfter(f: Filter, mb: seq<Buffer>, n: nat): int
    requires AllBacked(mb) && n <= |mb|
  {
    FilterAll(f, mb[..n]).packets
  }

  lemma CountAt(f: Filter, mb: seq<Buffer>, n: nat)
    requires AllBacked(mb) && n <= |mb|
    ensures PacketsAfter(f, mb, n) == if n <= FirstStop(f.serverHello, mb) then f.packets - Present(mb[..n]) else 0
  {
    FirstStopPrefix(f.serverHello, mb, n);
    if n <= FirstStop(f.serverHello, mb) {
      Unstopped(f, mb[..n]);
    } else {
      CallOutcome(f, mb[..n]);
    }
  }

  /**
   The count rises within a call exactly if there is a packet that stops the filter and more packets have come
   before it than the count allowed for.
   */
  lemma PacketsRiseIff(f: Filter, mb: seq<Buffer>)
    requires AllBacked(mb)
    ensures var k := FirstStop(f.serverHello, mb);
            (exists n :: 0 <= n < |mb| && RisesAt(f, mb, n))
            <==> k < |mb| && f.packets < Present(mb[..k])
  {
    var k := FirstStop(f.serverHello, mb);
    forall n | 0 <= n < |mb| ensures RisesAt(f, mb, n) <==> n == k && f.packets < Present(mb[..k]) { RiseAt(f, mb, n); }
    assert k < |mb| && f.packets < Present(mb[..k]) ==> RisesAt(f, mb, k);
  }

  predicate RisesAt(f: Filter, mb: seq<Buffer>, n: nat)
    requires AllBacked(mb) && n < |mb|
  {
    PacketsAfter(f, mb, n) < PacketsAfter(f, mb, n + 1)
  }

  lemma RiseAt(f: Filter, mb: seq<Buffer>, n: nat)
    requires AllBacked(mb) && n < |mb|
    ensures RisesAt(f, mb, n) <==> n == FirstStop(f.serverHello, mb) && f.packets < Present(mb[..n])
  {
    CountAt(f, mb, n);
    CountAt(f, mb, n + 1);
    TakeNext(mb, n);
    PresentAppend(mb[..n], [mb[n]]);
  }

  /** A packet of one byte that continues a ServerHello. */
  const MORE := Buffer([0], [])

  lemma {:induction false} SlowHello(h: int, n: nat)
    requires h > n
    ensures var mb := seq(n, _ => MORE);
            FirstStop(h, mb) == n && Outstanding(h, mb) == h - n && Present(mb) == n && AllBacked(mb)
  {
    if n > 0 {
      var mb := seq(n, _ => MORE);
      assert mb[1..] == seq(n - 1, _ => MORE);
      SlowHello(h - 1, n - 1);
    }
  }

  /**
   Such a rise happens in a run from the start: a ServerHello announces 15 bytes, and nine packets of one byte
   follow, the last three of them in one call.
   */
  lemma PacketsCanRise() returns (calls: seq<seq<Buffer>>, mb: seq<Buffer>)
    ensures (forall c <- calls :: AllBacked(c)) && AllBacked(mb)
    ensures forall b <- mb :: Data(b) != []
    ensures var f := FilterRun(FRESH, calls);
            f.packets > 0 && exists n :: 0 <= n < |mb| && RisesAt(f, mb, n)
  {
    var hello := Buffer([0x16, 0x03, 0x03, 0x00, 0x0a, 0x02], []);
    var slow := seq(6, _ => MORE);
    var first := [hello] + slow;
    calls := [first];
    mb := seq(3, _ => MORE);
    SlowHello(9, 6);
    assert first[1..] == slow && Left(-1, hello) == 9;
    assert FirstStop(-1, first) == 7 && Outstanding(-1, first) == 3 && Present(first) == 7;
    Unstopped(FRESH, first);
    assert calls[1..] == [];
    var f := FilterRun(FRESH, calls);
    SlowHello(3, 2);
    assert mb[..2] == seq(2, _ => MORE) && mb == mb[..2] + [MORE];
    FirstStopAppend(3, mb[..2], [MORE]);
    assert [MORE][1..] == [] && Stops(1, MORE);
    PacketsRiseIff(f, mb);
  }

  lemma {:induction false} FilterAllLowers(f: Filter, mb: seq<Buffer>)
    requires AllBacked(mb)
    ensures f.packets > 0 ==> FilterAll(f, mb).packets <= f.packets
    ensures f.packets <= 0 ==> FilterAll(f, mb).packets <= 0
    decreases |mb|
  {
    if mb != [] {
      var (g, stop) := FilterOne(f, mb[0]);
      if !stop {
        FilterAllLowers(g, mb[1..]);
      }
    }
  }

  /** The calls of both directions, in the order in which they happen. */
  function FilterRun(f: Filter, calls: seq<seq<Buffer>>): Filter
    requires forall mb <- calls :: AllBacked(mb)
    decreases |calls|
  {
    if calls == [] then f else FilterRun(Gated(f, calls[0]), calls[1..])
  }

  /** The invariant over all runs; the packet count falls; at zero or below everything is frozen. */
  lemma {:induction false} FilterRunKeeps(f: Filter, calls: seq<seq<Buffer>>)
    requires (forall mb <- calls :: AllBacked(mb)) && FilterInvariant(f)
    ensures FilterInvariant(FilterRun(f, calls))
    ensures FilterRun(f, calls).packets <= f.packets
    ensures f.packets <= 0 ==> FilterRun(f, calls) == f
    decreases |calls|
  {
    if calls != [] {
      if f.packets > 0 {
        FilterAllKeeps(f, calls[0]);
        FilterAllLowers(f, calls[0]);
      }
      FilterRunKeeps(Gated(f, calls[0]), calls[1..]);
    }
  }

  /** Direct copy is enabled by no TLS client traffic alone: a ServerHello has to be seen first. */
  lemma {:induction false} NoServerHelloNoXtls(f: Filter, calls: seq<seq<Buffer>>)
    requires (forall mb <- calls :: AllBacked(mb)) && FilterInvariant(f) && !f.isTLS12orAbove
    requires forall mb <- calls, b <- mb :: !IsServerHello(Data(b))
    ensures !FilterRun(f, calls).isTLS12orAbove && !FilterRun(f, calls).enableXtls
    decreases |calls|
  {
    if calls != [] {
      if f.packets > 0 {
        NoServerHelloInCall(f, calls[0]);
        FilterAllKeeps(f, calls[0]);
      }
      NoServerHelloNoXtls(Gated(f, calls[0]), calls[1..]);
    }
  }

  lemma {:induction false} NoServerHelloInCall(f: Filter, mb: seq<Buffer>)
    requires AllBacked(mb) && FilterInvariant(f) && !f.isTLS12orAbove
    requires forall b <- mb :: !IsServerHello(Data(b))
    ensures !FilterAll(f, mb).isTLS12orAbove
    decreases |mb|
  {
    if mb != [] {
      NoServerHelloInCall(FilterOne(f, mb[0]).0, mb[1..]);
    }
  }

  // ---- which runs enable direct copy ----

  function Packets(calls: seq<seq<Buffer>>): seq<Buffer> {
    if calls == [] then [] else calls[0] + Packets(calls[1..])
  }

  /**
   The i-th call comes while there are packets left to filter and none has stopped the filter, and it ends in a
   packet that shows TLS 1.3 within the ServerHello, of an accepted suite.
   */
  predicate EnabledBy(f: Filter, calls: seq<seq<Buffer>>, i: nat)
    requires i < |calls| && AllBacked(Packets(calls[..i]) + calls[i])
  {
    var before := Packets(calls[..i]);
    && FirstStop(f.serverHello, before) == |before| && Present(before) < f.packets
    && EndsInXtls(f.serverHello, f.cipher, before + calls[i])
  }

  lemma {:induction false} PacketsBacked(calls: seq<seq<Buffer>>, i: nat)
    requires i <= |calls| && forall mb <- calls :: AllBacked(mb)
    ensures AllBacked(Packets(calls[..i]))
  {
    if i > 0 {
      assert calls[..i][1..] == calls[1..][..i - 1];
      PacketsBacked(calls[1..], i - 1);
      assert AllBacked(calls[0]);
      BackedAppend(calls[0], Packets(calls[1..][..i - 1]));
    }
  }

  lemma BackedAppend(a: seq<Buffer>, b: seq<Buffer>)
    requires AllBacked(a) && AllBacked(b)
    ensures AllBacked(a + b)
  {
  }

  lemma CallsBacked(calls: seq<seq<Buffer>>)
    requires forall mb <- calls :: AllBacked(mb)
    ensures forall i | 0 <= i < |calls| :: AllBacked(Packets(calls[..i]) + calls[i])
  {
    forall i | 0 <= i < |calls| ensures AllBacked(Packets(calls[..i]) + calls[i]) {
      PacketsBacked(calls, i);
      assert AllBacked(calls[i]);
      BackedAppend(Packets(calls[..i]), calls[i]);
    }
  }

  lemma EndsInXtlsAppend(h: int, cipher: nat, a: seq<Buffer>, b: seq<Buffer>)
    requires AllBacked(a) && AllBacked(b) && AllBacked(a + b) && FirstStop(h, a) == |a|
    ensures EndsInXtls(h, cipher, a + b) <==> EndsInXtls(Outstanding(h, a), LastSuite(cipher, a), b)
  {
    FirstStopAppend(h, a, b);
    var k := FirstStop(Outstanding(h, a), b);
    assert k < |b| <==> FirstStop(h, a + b) < |a + b|;
    if k < |b| {
      SameAfter(h, cipher, a, b, k);
    }
  }

  /** Packet `k` of `b`, with `a` before it. */
  lemma SameAfter(h: int, cipher: nat, a: seq<Buffer>, b: seq<Buffer>, k: nat)
    requires AllBacked(a) && AllBacked(b) && AllBacked(a + b) && k < |b|
    ensures (a + b)[|a| + k] == b[k]
    ensures Outstanding(h, (a + b)[..|a| + k]) == Outstanding(Outstanding(h, a), b[..k])
    ensures LastSuite(cipher, (a + b)[..|a| + k + 1]) == LastSuite(LastSuite(cipher, a), b[..k + 1])
  {
    TakeMore(a, b, k);
    TakeMore(a, b, k + 1);
    OutstandingAppend(h, a, b[..k]);
    LastSuiteAppend(cipher, a, b[..k + 1]);
  }

  /** A call that does not stop the filter, put in front of the others. */
  lemma LaterCall(f: Filter, calls: seq<seq<Buffer>>, i: nat)
    requires (forall mb <- calls :: AllBacked(mb)) && i + 1 < |calls|
    requires f.packets > 0 && FirstStop(f.serverHello, calls[0]) == |calls[0]|
    ensures AllBacked(Packets(calls[..i + 1]) + calls[i + 1]) && AllBacked(Packets(calls[1..][..i]) + calls[1..][i])
    ensures EnabledBy(f, calls, i + 1) <==> EnabledBy(FilterAll(f, calls[0]), calls[1..], i)
  {
    CallsBacked(calls);
    CallsBacked(calls[1..]);
    PacketsBacked(calls[1..], i);
    var (a, rest, b) := (calls[0], Packets(calls[1..][..i]), calls[i + 1]);
    assert calls[..i + 1][1..] == calls[1..][..i];
    assert Packets(calls[..i + 1]) == a + rest;
    Unstopped(f, a);
    FirstStopAppend(f.serverHello, a, rest);
    PresentAppend(a, rest);
    BackedAppend(rest, b);
    BackedAppend(a, rest + b);
    EndsInXtlsAppend(f.serverHello, f.cipher, a, rest + b);
    Assoc(a, rest, b);
  }

  lemma StoppedCall(f: Filter, calls: seq<seq<Buffer>>, i: nat)
    requires (forall mb <- calls :: AllBacked(mb)) && i + 1 < |calls|
    requires f.packets <= 0 || FirstStop(f.serverHello, calls[0]) < |calls[0]|
    ensures AllBacked(Packets(calls[..i + 1]) + calls[i + 1]) && !EnabledBy(f, calls, i + 1)
  {
    CallsBacked(calls);
    assert calls[..i + 1][1..] == calls[1..][..i];
    FirstStopAppend(f.serverHello, calls[0], Packets(calls[1..][..i]));
  }

  lemma FirstCall(f: Filter, calls: seq<seq<Buffer>>)
    requires (forall mb <- calls :: AllBacked(mb)) && calls != []
    ensures AllBacked(Packets(calls[..0]) + calls[0])
    ensures EnabledBy(f, calls, 0) <==> f.packets > 0 && EndsInXtls(f.serverHello, f.cipher, calls[0])
  {
    assert calls[..0] == [] && [] + calls[0] == calls[0];
  }

  /**
   Direct copy is enabled exactly by a call that reaches TLS 1.3 in time: whatever packets and calls the ServerHello
   is spread over.
   */
  lemma {:induction false} EnabledIff(f: Filter, calls: seq<seq<Buffer>>)
    requires forall mb <- calls :: AllBacked(mb)
    ensures forall i | 0 <= i < |calls| :: AllBacked(Packets(calls[..i]) + calls[i])
    ensures FilterRun(f, calls).enableXtls
            <==> f.enableXtls || exists i :: 0 <= i < |calls| && EnabledBy(f, calls, i)
    decreases |calls|
  {
    CallsBacked(calls);
    if calls != [] {
      var g := Gated(f, calls[0]);
      CallsBacked(calls[1..]);
      FirstCall(f, calls);
      CallOutcome(f, calls[0]);
      EnabledIff(g, calls[1..]);
      if f.packets > 0 && FirstStop(f.serverHello, calls[0]) == |calls[0]| {
        LaterIff(f, calls);
      } else {
        Frozen(g, calls[1..]);
        forall i | 0 < i < |calls| ensures !EnabledBy(f, calls, i) { StoppedCall(f, calls, i - 1); }
        assert EnabledBy(f, calls, 0) <==> f.packets > 0 && EndsInXtls(f.serverHello, f.cipher, calls[0]);
      }
    }
  }

  /** After a call that does not stop the filter, it is up to the later ones. */
  lemma LaterIff(f: Filter, calls: seq<seq<Buffer>>)
    requires (forall mb <- calls :: AllBacked(mb)) && calls != []
    requires f.packets > 0 && FirstStop(f.serverHello, calls[0]) == |calls[0]|
    ensures forall i | 0 <= i < |calls| :: AllBacked(Packets(calls[..i]) + calls[i])
    ensures forall i | 0 <= i < |calls[1..]| :: AllBacked(Packets(calls[1..][..i]) + calls[1..][i])
    ensures (exists i :: 0 <= i < |calls| && EnabledBy(f, calls, i))
            <==> (exists k :: 0 <= k < |calls[1..]| && EnabledBy(FilterAll(f, calls[0]), calls[1..], k))
  {
    CallsBacked(calls);
    CallsBacked(calls[1..]);
    FirstCall(f, calls);
    var g := FilterAll(f, calls[0]);
    forall i | 0 <= i < |calls| && EnabledBy(f, calls, i)
      ensures exists k :: 0 <= k < |calls[1..]| && EnabledBy(g, calls[1..], k)
    {
      LaterCall(f, calls, i - 1);
      assert EnabledBy(g, calls[1..], i - 1);
    }
    forall k | 0 <= k < |calls[1..]| && EnabledBy(g, calls[1..], k)
      ensures exists i :: 0 <= i < |calls| && EnabledBy(f, calls, i)
    {
      LaterCall(f, calls, k);
      assert EnabledBy(f, calls, k + 1);
    }
  }

  lemma {:induction false} Frozen(f: Filter, calls: seq<seq<Buffer>>)
    requires (forall mb <- calls :: AllBacked(mb)) && f.packets <= 0
    ensures FilterRun(f, calls) == f
    decreases |calls|
  {
    if calls != [] {
      Frozen(f, calls[1..]);
    }
  }

  // ---- which packets are looked at, and what is learnt from them ----

  /** The packets of one call up to the one that stops the filter. */
  function LookedAtInCall(h: int, mb: seq<Buffer>): seq<Buffer> {
    var k := FirstStop(h, mb);
    if k < |mb| then mb[..k + 1] else mb
  }

  /** The packets that are looked at over a run that starts with `packets` left and `h` bytes of a hello outstanding. */
  function LookedAt(packets: int, h: int, calls: seq<seq<Buffer>>): seq<Buffer>
    decreases |calls|
  {
    if calls == [] || packets <= 0 then []
    else if FirstStop(h, calls[0]) < |calls[0]| then LookedAtInCall(h, calls[0])
    else calls[0] + LookedAt(packets - Present(calls[0]), Outstanding(h, calls[0]), calls[1..])
  }

  /** A handshake record of version 3.x with a ClientHello, or of version 3.3 with a ServerHello, is at the front. */
  predicate BringsHello(b: seq<byte>, client: bool) {
    |b| >= 6 && b[0] == 0x16 && b[1] == 0x03 && (if client then b[5] == 0x01 else b[2] == 0x03 && b[5] == 0x02)
  }

  predicate AnyHello(looked: seq<Buffer>) {
    exists b <- looked :: BringsHello(Data(b), false) || BringsHello(Data(b), true)
  }

  predicate AnyServerHello(looked: seq<Buffer>) {
    exists b <- looked :: BringsHello(Data(b), false)
  }

  lemma AnyHead(b: Buffer, rest: seq<Buffer>)
    ensures AnyHello([b] + rest) <==> IsServerHello(Data(b)) || IsClientHello(Data(b)) || AnyHello(rest)
    ensures AnyServerHello([b] + rest) <==> IsServerHello(Data(b)) || AnyServerHello(rest)
  {
    assert b in [b] + rest;
    assert forall x <- rest :: x in [b] + rest;
  }

  lemma LookedAtNext(h: int, mb: seq<Buffer>)
    requires mb != []
    ensures LookedAtInCall(h, mb) == [mb[0]] + if Stops(h, mb[0]) then [] else LookedAtInCall(Left(h, mb[0]), mb[1..])
  {
    if !Stops(h, mb[0]) {
      var k := FirstStop(Left(h, mb[0]), mb[1..]);
      assert k < |mb| - 1 ==> mb[..k + 2] == [mb[0]] + mb[1..][..k + 1];
    }
  }

  lemma {:induction false} CallLearns(f: Filter, mb: seq<Buffer>)
    requires AllBacked(mb)
    ensures var (g, looked) := (FilterAll(f, mb), LookedAtInCall(f.serverHello, mb));
            && (g.isTLS <==> f.isTLS || AnyHello(looked))
            && (g.isTLS12orAbove <==> f.isTLS12orAbove || AnyServerHello(looked))
    decreases |mb|
  {
    if mb != [] {
      var (g, stop) := FilterOne(f, mb[0]);
      OnePacket(f, mb[0]);
      LookedAtNext(f.serverHello, mb);
      AnyHead(mb[0], if stop then [] else LookedAtInCall(Left(f.serverHello, mb[0]), mb[1..]));
      if !stop {
        CallLearns(g, mb[1..]);
      }
    }
  }

  /**
   The traffic is taken for TLS exactly if a ClientHello or a ServerHello is among the packets looked at, and for
   TLS 1.2 or above exactly if a ServerHello is.
   */
  lemma {:induction false} LearntIff(f: Filter, calls: seq<seq<Buffer>>)
    requires forall mb <- calls :: AllBacked(mb)
    ensures var (g, looked) := (FilterRun(f, calls), LookedAt(f.packets, f.serverHello, calls));
            && (g.isTLS <==> f.isTLS || AnyHello(looked))
            && (g.isTLS12orAbove <==> f.isTLS12orAbove || AnyServerHello(looked))
    decreases |calls|
  {
    if calls != [] {
      var g := Gated(f, calls[0]);
      if f.packets <= 0 {
        Frozen(f, calls);
      } else {
        CallLearns(f, calls[0]);
        CallOutcome(f, calls[0]);
        if FirstStop(f.serverHello, calls[0]) < |calls[0]| {
          Frozen(g, calls[1..]);
        } else {
          Unstopped(f, calls[0]);
          LearntIff(g, calls[1..]);
        }
      }
    }
  }

  // ---- a ServerHello as section 4.1.3 of RFC 8446 lays it out ----

  function Field16(n: nat): (r: seq<byte>)
    requires n < 0x10000
    ensures |r| == 2 && r[0] as nat * 256 + r[1] as nat == n
  {
    [(n / 256) as byte, (n % 256) as byte]
  }

  /** The record of a ServerHello: `rest` is the compression method and the extensions. */
  function HelloRecord(random: seq<byte>, sessionId: seq<byte>, suite: nat, rest: seq<byte>): (r: seq<byte>)
    requires |random| == 32 && |sessionId| <= 32 && suite < 0x10000 && |rest| < 0x8000
  {
    var body := [0x03, 0x03] + random + [|sessionId| as byte] + sessionId + Field16(suite) + rest;
    [0x16, 0x03, 0x03] + Field16(4 + |body|) + [0x02, 0x00] + Field16(|body|) + body
  }

  /** A packet that holds the front of a ServerHello, or all of it and more. */
  predicate Holds(b: seq<byte>, record: seq<byte>) {
    b <= record || record <= b
  }

  lemma HelloLayout(random: seq<byte>, sessionId: seq<byte>, suite: nat, rest: seq<byte>)
    requires |random| == 32 && |sessionId| <= 32 && suite < 0x10000 && |rest| < 0x8000
    ensures var (r, n) := (HelloRecord(random, sessionId, suite, rest), |sessionId|);
            && |r| == 46 + n + |rest|
            && r[..3] == [0x16, 0x03, 0x03] && r[3] as nat * 256 + r[4] as nat == |r| - 5 && r[5] == 0x02
            && r[43] as nat == n
            && r[44 + n] as nat * 256 + r[45 + n] as nat == suite
            && r[46 + n..] == rest
  {}

  /** The length of the record, and of a hello long enough the suite, wherever the session id puts it. */
  lemma SuiteOfHello(random: seq<byte>, sessionId: seq<byte>, suite: nat, rest: seq<byte>, b: Buffer, cipher: nat)
    requires |random| == 32 && |sessionId| <= 32 && suite < 0x10000 && |rest| < 0x8000
    requires b.Buffer? && |b.bytes| >= 6 && Backed(b)
    requires Holds(b.bytes, HelloRecord(random, sessionId, suite, rest))
    ensures var r := HelloRecord(random, sessionId, suite, rest);
            && IsServerHello(b.bytes) && RecordLength(b.bytes) == |r|
            && Suite(cipher, b) == if |b.bytes| >= 79 && |r| >= 79 then suite else cipher
  {
    HelloLayout(random, sessionId, suite, rest);
    var r := HelloRecord(random, sessionId, suite, rest);
    assert forall i | 0 <= i < |r| && i < |b.bytes| :: b.bytes[i] == r[i];
    assert b.bytes[..3] == r[..3];
  }

  lemma OccursInside(s: seq<byte>, n: nat, before: seq<byte>, pattern: seq<byte>, after: seq<byte>)
    requires n <= |s| && s[n..] == before + pattern + after
    ensures Contains(s, pattern)
  {
    var at := n + |before|;
    assert s[at..at + |pattern|] == s[n..][|before|..|before| + |pattern|];
    assert OccursAt(s, pattern, at);
  }

  /**
   A whole ServerHello of TLS 1.3 in one packet, at any time while packets are left, stops the filter; and it enables
   direct copy exactly for the suites 0x1301 to 0x1304, if it is long enough to be asked for its suite.
   */
  lemma WholeHelloEnables(f: Filter, random: seq<byte>, sessionId: seq<byte>, suite: nat, before: seq<byte>,
                          after: seq<byte>, trail: seq<byte>, beyond: seq<byte>)
    requires |random| == 32 && |sessionId| <= 32 && suite < 0x10000 && |before| + 6 + |after| < 0x8000
    requires f.packets > 0 && !f.enableXtls
    ensures var record := HelloRecord(random, sessionId, suite,
                                      before + [0x00, 0x2b, 0x00, 0x02, 0x03, 0x04] + after);
            var b := Buffer(record + trail, beyond);
            && Backed(b)
            && (FilterAll(f, [b]).enableXtls <==> 0x1301 <= (if |record| >= 79 then suite else f.cipher) <= 0x1304)
            && FilterAll(f, [b]).packets == 0
  {
    var rest := before + [0x00, 0x2b, 0x00, 0x02, 0x03, 0x04] + after;
    var record := HelloRecord(random, sessionId, suite, rest);
    var b := Buffer(record + trail, beyond);
    HelloLayout(random, sessionId, suite, rest);
    SuiteOfHello(random, sessionId, suite, rest, b, f.cipher);
    OccursInside(record, 46 + |sessionId|, before, SUPPORTED_VERSIONS, after);
    TakeFirst(record, trail, |record|);
    TakeAll(record);
    OnePacket(f, b);
  }

  // ---- the code ----

  class TrafficState {
    const userUUID: seq<byte>
    var numberOfPacketToFilter: int
    var enableXtls: bool
    var isTLS12orAbove: bool
    var isTLS: bool
    var cipher: nat
    var remainingServerHello: int
    const inbound: LinkState
    const outbound: LinkState

    constructor (userUUID: seq<byte>)
      ensures this.userUUID == userUUID && FilterValue() == FRESH
      ensures fresh(inbound) && fresh(outbound) && inbound != outbound
      ensures inbound.withinPaddingBuffers && inbound.Counts() == INITIAL && inbound.isPadding
      ensures outbound.withinPaddingBuffers && outbound.Counts() == INITIAL && outbound.isPadding
      ensures !inbound.readerDirectCopy && !inbound.writerDirectCopy
      ensures !outbound.readerDirectCopy && !outbound.writerDirectCopy
    {
      this.userUUID := userUUID;
      numberOfPacketToFilter := 8;
      enableXtls, isTLS12orAbove, isTLS := false, false, false;
      cipher, remainingServerHello := 0, -1;
      inbound := new LinkState();
      outbound := new LinkState();
    }

    function FilterValue(): Filter
      reads this
    {
      Filter(numberOfPacketToFilter, enableXtls, isTLS12orAbove, isTLS, cipher, remainingServerHello)
    }

    /** The part of the filter that looks at the first bytes of a packet. */
    method LookForHello(b: Buffer)
      requires b.Buffer? && Backed(b)
      modifies `isTLS12orAbove, `isTLS, `cipher, `remainingServerHello
      ensures FilterValue() == NoteHello(old(FilterValue()), b)
    {
      if |b.bytes| >= 6 {
        if SERVER_HANDSHAKE_START == b.bytes[..3] && b.bytes[5] == SERVER_HELLO {
          remainingServerHello := b.bytes[3] as int * 256 + b.bytes[4] as int + 5;
          isTLS12orAbove := true;
          isTLS := true;
          if |b.bytes| >= 79 && remainingServerHello >= 79 {
            cipher := CipherOf(b);
          }
        } else if CLIENT_HANDSHAKE_START == b.bytes[..2] && b.bytes[5] == CLIENT_HELLO {
          isTLS := true;
        }
      }
    }

    /** The part of the filter that follows a ServerHello; tells whether the filter stops. */
    method FollowServerHello(b: Buffer) returns (stop: bool)
      requires b.Buffer? && Backed(b)
      modifies `numberOfPacketToFilter, `enableXtls, `remainingServerHello
      ensures (FilterValue(), stop) == FollowHello(old(FilterValue()), b)
    {
      stop := false;
      if remainingServerHello > 0 {
        var end := remainingServerHello;
        if end > |b.bytes| {
          end := |b.bytes|;
        }
        remainingServerHello := remainingServerHello - |b.bytes|;
        if Contains(b.bytes[..end], SUPPORTED_VERSIONS) {
          if AcceptedSuite(cipher) {
            enableXtls := true;
          }
          numberOfPacketToFilter := 0;
          stop := true;
        } else if remainingServerHello <= 0 {
          numberOfPacketToFilter := 0;
          stop := true;
        }
      }
    }

    method XtlsFilterTls(buffer: seq<Buffer>)
      requires AllBacked(buffer)
      modifies this
      ensures FilterValue() == FilterAll(old(FilterValue()), buffer)
    {
      for k := 0 to |buffer|
        invariant FilterAll(old(FilterValue()), buffer) == FilterAll(FilterValue(), buffer[k..])
      {
        assert buffer[k..][1..] == buffer[k + 1..] && buffer[k..][0] == buffer[k];
        var b := buffer[k];
        if b.NoBuffer? {
          continue;
        }
        numberOfPacketToFilter := numberOfPacketToFilter - 1;
        LookForHello(b);
        var stop := FollowServerHello(b);
        if stop {
          return;
        }
      }
    }
  }
}
