/** Cutting buffers so that a padding header fits in front of them: `ReshapeMultiBuffer`. */
module VisionReshape {
  import opened Bytes
  import TlsRecords

  /** The capacity of a regular buffer. */
  const SIZE := 8192

  /** The identifier and the block header. */
  const OVERHEAD := 21

  /** The last place where `pattern` occurs at or before `from`, or -1. */
  function LastOccurrence(s: seq<byte>, pattern: seq<byte>, from: int): (r: int)
    requires from >= -1
    ensures r == -1 || (r <= from && OccursAt(s, pattern, r))
    ensures forall i :: r < i <= from ==> !OccursAt(s, pattern, i)
    decreases from
  {
    if from == -1 then -1
    else if OccursAt(s, pattern, from) then from
    else LastOccurrence(s, pattern, from - 1)
  }

  /** Where a large buffer is cut: at its last application-data record, if there is room on both sides. */
  function CutAt(b: seq<byte>): (index: nat)
    requires SIZE - OVERHEAD <= |b| <= SIZE
    ensures index <= SIZE - OVERHEAD && |b| - index <= SIZE - OVERHEAD
  {
    var index := LastOccurrence(b, TlsRecords.APPLICATION_DATA_START, |b|);
    if index < 21 || index > SIZE - 21 then SIZE / 2 else index
  }

  /** The last application-data record in a buffer begins at `i`, as far as its first three bytes tell. */
  predicate LastRecordAt(b: seq<byte>, i: int) {
    OccursAt(b, [0x17, 0x03, 0x03], i) && forall j :: i < j <= |b| ==> !OccursAt(b, [0x17, 0x03, 0x03], j)
  }

  predicate Regular(bs: seq<seq<byte>>) {
    forall b <- bs :: |b| <= SIZE
  }

  function ReshapeOne(b: seq<byte>): seq<seq<byte>>
    requires |b| <= SIZE
  {
    if |b| >= SIZE - OVERHEAD then [b[..CutAt(b)], b[CutAt(b)..]] else [b]
  }

  function Reshape(bs: seq<seq<byte>>): seq<seq<byte>>
    requires Regular(bs)
  {
    if bs == [] then [] else ReshapeOne(bs[0]) + Reshape(bs[1..])
  }

  lemma {:induction false} ReshapeAppend(a: seq<seq<byte>>, b: seq<seq<byte>>)
    requires Regular(a) && Regular(b)
    ensures Reshape(a + b) == Reshape(a) + Reshape(b)
  {
    if a == [] {
      assert a + b == b;
    } else {
      ReshapeAppend(a[1..], b);
      assert (a + b)[1..] == a[1..] + b;
    }
  }

  lemma {:induction false} ReshapeSmall(bs: seq<seq<byte>>)
    requires forall b <- bs :: |b| < SIZE - OVERHEAD
    ensures Reshape(bs) == bs
  {
    if bs != [] {
      ReshapeSmall(bs[1..]);
    }
  }

  lemma ReshapeOneCorrect(b: seq<byte>)
    requires |b| <= SIZE
    ensures Flatten(ReshapeOne(b)) == b
    ensures forall p <- ReshapeOne(b) :: |p| <= SIZE - OVERHEAD
  {
    var one := ReshapeOne(b);
    if |one| == 2 {
      assert one[1..] == [one[1]];
      FlattenSnoc([one[0]], one[1]);
      FlattenSnoc([], one[0]);
      assert [] + [one[0]] == [one[0]] && [one[0]] + [one[1]] == one;
      assert [] + one[0] == one[0];
      assert b == one[0] + one[1];
    } else {
      FlattenSnoc([], b);
      assert [] + [b] == one && [] + b == b;
    }
  }

  /**
   A buffer stays whole below 8171 bytes. Otherwise it is cut once: where its last record begins, if that is 21 bytes
   or more from the front and in the first 8171 bytes, and in the middle of a full buffer if not.
   */
  lemma {:induction false} CutFallsAt(b: seq<byte>)
    requires |b| <= SIZE
    ensures |b| < 8171 ==> ReshapeOne(b) == [b]
    ensures |b| >= 8171 ==>
              forall i | LastRecordAt(b, i) ::
                ReshapeOne(b) == var at := if 21 <= i <= 8171 then i else 4096; [b[..at], b[at..]]
    ensures |b| >= 8171 && (forall i :: !LastRecordAt(b, i)) ==> ReshapeOne(b) == [b[..4096], b[4096..]]
  {
    if |b| >= SIZE - OVERHEAD {
      var last := LastOccurrence(b, TlsRecords.APPLICATION_DATA_START, |b|);
      assert last >= 0 ==> LastRecordAt(b, last);
      forall i | LastRecordAt(b, i) ensures i == last {}
    }
  }

  /** Reshaping keeps the bytes and leaves room for the overhead in every buffer. */
  lemma {:induction false} ReshapeCorrect(bs: seq<seq<byte>>)
    requires Regular(bs)
    ensures Flatten(Reshape(bs)) == Flatten(bs)
    ensures forall b <- Reshape(bs) :: |b| <= SIZE - OVERHEAD
    ensures bs != [] ==> Reshape(bs) != []
  {
    if bs != [] {
      ReshapeCorrect(bs[1..]);
      ReshapeOneCorrect(bs[0]);
      FlattenAppend(ReshapeOne(bs[0]), Reshape(bs[1..]));
    }
  }

  method ReshapeMultiBuffer(buffer: seq<seq<byte>>) returns (mb2: seq<seq<byte>>)
    requires Regular(buffer)
    ensures mb2 == Reshape(buffer)
  {
    var needReshape := 0;
    for k := 0 to |buffer|
      invariant needReshape >= 0
      invariant needReshape == 0 <==> forall j :: 0 <= j < k ==> |buffer[j]| < SIZE - OVERHEAD
    {
      if |buffer[k]| >= SIZE - OVERHEAD {
        needReshape := needReshape + 1;
      }
    }
    if needReshape == 0 {
      ReshapeSmall(buffer);
      return buffer;
    }
    mb2 := [];
    for k := 0 to |buffer|
      invariant mb2 == Reshape(buffer[..k])
    {
      var buffer1 := buffer[k];
      ReshapeAppend(buffer[..k], [buffer1]);
      assert buffer[..k + 1] == buffer[..k] + [buffer1];
      assert Reshape([buffer1]) == ReshapeOne(buffer1) + Reshape([buffer1][1..]);
      if |buffer1| >= SIZE - OVERHEAD {
        var index := CutAt(buffer1);
        mb2 := mb2 + [buffer1[..index], buffer1[index..]];
      } else {
        mb2 := mb2 + [buffer1];
      }
    }
    assert buffer[..|buffer|] == buffer;
  }
}
