/** Recognising whole TLS application-data records (section 5.2 of RFC 8446). */
module TlsRecords {
  import opened Bytes

  const APPLICATION_DATA_START: seq<byte> := [0x17, 0x03, 0x03]

  /** The fragment of a record: not empty, and its length fits the 16-bit field. */
  predicate IsFragment(f: seq<byte>) {
    0 < |f| < 0x10000
  }

  function Record(f: seq<byte>): (r: seq<byte>)
    requires IsFragment(f)
    ensures |r| == 5 + |f|
  {
    APPLICATION_DATA_START + [(|f| / 256) as byte, (|f| % 256) as byte] + f
  }

  function Records(fs: seq<seq<byte>>): seq<byte>
    requires forall f <- fs :: IsFragment(f)
  {
    if fs == [] then [] else Record(fs[0]) + Records(fs[1..])
  }

  /** The bytes are a concatenation of zero or more records. */
  ghost predicate IsRecords(s: seq<byte>) {
    exists fs: seq<seq<byte>> :: (forall f <- fs :: IsFragment(f)) && Records(fs) == s
  }

  function FragmentLength(s: seq<byte>): nat
    requires |s| >= 5
  {
    s[3] as nat * 256 + s[4] as nat
  }

  /** A whole record stands at the front. */
  predicate StartsWithRecord(s: seq<byte>) {
    |s| >= 5 && s[..3] == APPLICATION_DATA_START && 0 < FragmentLength(s) <= |s| - 5
  }

  /** Strips one record after the other. */
  predicate Complete(s: seq<byte>)
    decreases |s|
  {
    s == [] || (StartsWithRecord(s) && Complete(s[5 + FragmentLength(s)..]))
  }

  lemma FrontRecord(f: seq<byte>, rest: seq<byte>)
    requires IsFragment(f)
    ensures StartsWithRecord(Record(f) + rest)
    ensures FragmentLength(Record(f) + rest) == |f|
    ensures (Record(f) + rest)[5 + |f|..] == rest
  {
    var s := Record(f) + rest;
    assert s[..3] == APPLICATION_DATA_START;
    assert s[3] == (|f| / 256) as byte && s[4] == (|f| % 256) as byte;
  }

  lemma {:induction false} RecordsAreComplete(fs: seq<seq<byte>>)
    requires forall f <- fs :: IsFragment(f)
    ensures Complete(Records(fs))
    decreases |fs|
  {
    if fs != [] {
      FrontRecord(fs[0], Records(fs[1..]));
      RecordsAreComplete(fs[1..]);
    }
  }

  lemma {:induction false} CompleteAreRecords(s: seq<byte>) returns (fs: seq<seq<byte>>)
    requires Complete(s)
    ensures (forall f <- fs :: IsFragment(f)) && Records(fs) == s
    decreases |s|
  {
    if s == [] {
      fs := [];
    } else {
      var n := FragmentLength(s);
      var f := s[5..5 + n];
      var rest := CompleteAreRecords(s[5 + n..]);
      fs := [f] + rest;
      assert s == Record(f) + s[5 + n..] by {
        assert s[..3] == APPLICATION_DATA_START;
        assert (|f| / 256) as byte == s[3] && (|f| % 256) as byte == s[4];
      }
      assert fs[1..] == rest;
    }
  }

  /** Stripping records succeeds on exactly the concatenations of records. */
  lemma CompleteIffRecords(s: seq<byte>)
    ensures Complete(s) <==> IsRecords(s)
  {
    if Complete(s) {
      var fs := CompleteAreRecords(s);
    }
    if IsRecords(s) {
      var fs: seq<seq<byte>> :| (forall f <- fs :: IsFragment(f)) && Records(fs) == s;
      RecordsAreComplete(fs);
    }
  }

  /** Closed under concatenation, and under removing a complete prefix. */
  lemma {:induction false} CompletePrefix(a: seq<byte>, b: seq<byte>)
    requires Complete(a)
    ensures Complete(a + b) <==> Complete(b)
    decreases |a|
  {
    if a == [] {
      assert a + b == b;
    } else {
      var n := 5 + FragmentLength(a);
      assert (a + b)[..3] == a[..3];
      assert (a + b)[n..] == a[n..] + b;
      CompletePrefix(a[n..], b);
    }
  }

  /** The same by index, without slicing. */
  predicate CompleteFrom(b: seq<byte>, start: nat)
    requires start <= |b|
    decreases |b| - start
  {
    start == |b| || (RecordAt(b, start) && CompleteFrom(b, start + 5 + LengthAt(b, start)))
  }

  function LengthAt(b: seq<byte>, start: nat): nat
    requires start + 5 <= |b|
  {
    b[start + 3] as nat * 256 + b[start + 4] as nat
  }

  predicate RecordAt(b: seq<byte>, start: nat) {
    && start + 5 <= |b|
    && b[start] == 0x17 && b[start + 1] == 0x03 && b[start + 2] == 0x03
    && 0 < LengthAt(b, start) <= |b| - start - 5
  }

  lemma {:induction false} CompleteByIndex(b: seq<byte>, start: nat)
    requires start <= |b|
    ensures CompleteFrom(b, start) <==> Complete(b[start..])
    decreases |b| - start
  {
    var s := b[start..];
    if |s| >= 5 {
      assert s[..3] == [b[start], b[start + 1], b[start + 2]];
    }
    if RecordAt(b, start) {
      var next := start + 5 + LengthAt(b, start);
      assert s[5 + FragmentLength(s)..] == b[next..];
      CompleteByIndex(b, next);
    }
  }

  /** The first `k` header bytes from `start` on match, and give this much of the length. */
  predicate HeaderSoFar(b: seq<byte>, start: nat, k: int, recordLen: int) {
    && 0 <= k <= 5 && start + k <= |b|
    && (k > 0 ==> b[start] == 0x17) && (k > 1 ==> b[start + 1] == 0x03) && (k > 2 ==> b[start + 2] == 0x03)
    && recordLen == (if k > 3 then b[start + 3] as nat * 256 else 0) + (if k > 4 then b[start + 4] as nat else 0)
  }

  /** The byte loop over the flattened buffers. */
  method IsCompleteRecord(buffer: seq<seq<byte>>) returns (complete: bool)
    ensures complete == Complete(Flatten(buffer))
  {
    var b := Flatten(buffer);
    var headerLen: int, recordLen: int := 5, 0;
    var i := 0;
    ghost var start := 0;   // where the current record starts
    CompleteByIndex(b, 0);
    assert b[0..] == b;
    while i < |b|
      invariant i == start + 5 - headerLen && 0 <= start
      invariant HeaderSoFar(b, start, 5 - headerLen, recordLen)
      invariant Complete(b) == CompleteFrom(b, start)
      decreases |b| - i, headerLen
    {
      if headerLen > 0 {
        var data := b[i];
        i := i + 1;
        match headerLen {
          case 5 => if data != 0x17 { return false; }
          case 4 => if data != 0x03 { return false; }
          case 3 => if data != 0x03 { return false; }
          case 2 => recordLen := data as int * 256;
          case _ => recordLen := recordLen + data as int;
        }
        headerLen := headerLen - 1;
      } else if recordLen > 0 {
        var remaining := |b| - i;
        if remaining < recordLen {
          return false;
        } else {
          i := i + recordLen;
          start := start + 5 + recordLen;
          recordLen, headerLen := 0, 5;
        }
      } else {
        return false;
      }
    }
    return headerLen == 5 && recordLen == 0;
  }
}
