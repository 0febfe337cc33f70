/** A parent node's ordered list of children, with the DOM's way of moving a node. */
module VueDom {

  import opened Options

  /** The identity of an element. */
  type Elm = nat

  ghost predicate NoDup<T>(s: seq<T>) {
    forall i, j :: 0 <= i < j < |s| ==> s[i] != s[j]
  }

  /** The first place of `x`, or the length. */
  function IndexOf<T(==)>(s: seq<T>, x: T): (k: nat)
    ensures k <= |s|
    ensures k < |s| ==> s[k] == x
    ensures x !in s[..k]
    ensures x in s <==> k < |s|
  {
    if s == [] then 0 else if s[0] == x then 0 else 1 + IndexOf(s[1..], x)
  }

  function Without<T(==)>(s: seq<T>, x: T): seq<T> {
    if s == [] then [] else if s[0] == x then s[1..] else [s[0]] + Without(s[1..], x)
  }

  function PutBefore<T(==)>(s: seq<T>, x: T, ref: Option<T>): seq<T> {
    if s == [] then [x] else if ref == Some(s[0]) then [x] + s else [s[0]] + PutBefore(s[1..], x, ref)
  }

  /** `insertBefore`: a node that is already a child is moved; without a reference node it goes last. */
  function InsertBefore<T(==)>(s: seq<T>, x: T, ref: Option<T>): seq<T> {
    PutBefore(Without(s, x), x, ref)
  }

  lemma {:induction false} IndexOfSplit<T>(a: seq<T>, x: T, b: seq<T>)
    requires x !in a
    ensures IndexOf(a + [x] + b, x) == |a|
    decreases |a|
  {
    if a == [] {
      assert (a + [x] + b)[0] == x;
    } else {
      IndexOfSplit(a[1..], x, b);
      assert (a + [x] + b)[0] == a[0];
      assert (a + [x] + b)[1..] == a[1..] + [x] + b;
    }
  }

  lemma {:induction false} WithoutSplit<T>(a: seq<T>, x: T, b: seq<T>)
    requires x !in a
    ensures Without(a + [x] + b, x) == a + b
    decreases |a|
  {
    var s := a + [x] + b;
    if a == [] {
      assert s[0] == x && s[1..] == b && a + b == b;
    } else {
      WithoutSplit(a[1..], x, b);
      assert s[0] == a[0] && s[1..] == a[1..] + [x] + b;
      assert [a[0]] + (a[1..] + b) == a + b;
    }
  }

  lemma {:induction false} WithoutAbsent<T>(s: seq<T>, x: T)
    requires x !in s
    ensures Without(s, x) == s
    decreases |s|
  {
    if s != [] {
      WithoutAbsent(s[1..], x);
    }
  }

  lemma {:induction false} PutSplit<T>(c: seq<T>, x: T, r: T, d: seq<T>)
    requires r !in c
    ensures PutBefore(c + [r] + d, x, Some(r)) == c + [x] + ([r] + d)
    decreases |c|
  {
    var s := c + [r] + d;
    if c == [] {
      assert s == [r] + d && c + [x] + s == [x] + s;
    } else {
      PutSplit(c[1..], x, r, d);
      assert s[0] == c[0] && s[1..] == c[1..] + [r] + d;
      assert [c[0]] + (c[1..] + [x] + ([r] + d)) == c + [x] + ([r] + d);
    }
  }

  lemma {:induction false} PutLast<T>(c: seq<T>, x: T)
    ensures PutBefore(c, x, None) == c + [x]
    decreases |c|
  {
    if c != [] {
      PutLast(c[1..], x);
      assert [c[0]] + (c[1..] + [x]) == c + [x];
    }
  }

  lemma NoDupSplit<T>(a: seq<T>, x: T, b: seq<T>)
    requires NoDup(a + [x] + b)
    ensures x !in a && x !in b && NoDup(a + b)
  {
    var s := a + [x] + b;
    assert forall i :: 0 <= i < |a| ==> s[i] == a[i];
    assert forall i :: 0 <= i < |b| ==> s[|a| + 1 + i] == b[i];
    assert s[|a|] == x;
  }

  lemma NoDupInsert<T>(a: seq<T>, x: T, b: seq<T>)
    requires NoDup(a + b) && x !in a && x !in b
    ensures NoDup(a + [x] + b)
  {
    var s, t := a + [x] + b, a + b;
    forall i, j | 0 <= i < j < |s|
      ensures s[i] != s[j]
    {
      if i != |a| && j != |a| {
        var i' := if i < |a| then i else i - 1;
        var j' := if j < |a| then j else j - 1;
        assert s[i] == t[i'] && s[j] == t[j'];
      }
    }
  }

  lemma PutNoDup<T>(c: seq<T>, x: T, r: T, d: seq<T>)
    requires NoDup(c + [r] + d) && x !in c + [r] + d
    ensures PutBefore(c + [r] + d, x, Some(r)) == c + [x] + ([r] + d)
    ensures NoDup(c + [x] + ([r] + d))
  {
    NoDupSplit(c, r, d);
    PutSplit(c, x, r, d);
    assert c + [r] + d == c + ([r] + d);
    NoDupInsert(c, x, [r] + d);
  }

  /** A child is moved in front of another one. */
  lemma MoveBefore<T>(a: seq<T>, x: T, b: seq<T>, c: seq<T>, r: T, d: seq<T>)
    requires NoDup(a + [x] + b) && a + b == c + [r] + d
    ensures InsertBefore(a + [x] + b, x, Some(r)) == c + [x] + ([r] + d)
    ensures NoDup(c + [x] + ([r] + d))
  {
    NoDupSplit(a, x, b);
    WithoutSplit(a, x, b);
    assert x !in a + b;
    PutNoDup(c, x, r, d);
  }

  /** A child is moved to the end. */
  lemma MoveLast<T>(a: seq<T>, x: T, b: seq<T>)
    requires NoDup(a + [x] + b)
    ensures InsertBefore(a + [x] + b, x, None) == a + b + [x]
    ensures NoDup(a + b + [x])
  {
    NoDupSplit(a, x, b);
    WithoutSplit(a, x, b);
    PutLast(a + b, x);
    assert a + b + [] == a + b;
    NoDupInsert(a + b, x, []);
    assert a + b + [x] + [] == a + b + [x];
  }

  /** A new child is put in front of another one. */
  lemma NewBefore<T>(c: seq<T>, x: T, r: T, d: seq<T>)
    requires NoDup(c + [r] + d) && x !in c + [r] + d
    ensures InsertBefore(c + [r] + d, x, Some(r)) == c + [x] + ([r] + d)
    ensures NoDup(c + [x] + ([r] + d))
  {
    WithoutAbsent(c + [r] + d, x);
    PutNoDup(c, x, r, d);
  }

  lemma NewLast<T>(c: seq<T>, x: T)
    requires NoDup(c) && x !in c
    ensures InsertBefore(c, x, None) == c + [x]
    ensures NoDup(c + [x])
  {
    WithoutAbsent(c, x);
    PutLast(c, x);
    assert c + [] == c;
    NoDupInsert(c, x, []);
    assert c + [x] + [] == c + [x];
  }

  function NextSibling<T(==)>(s: seq<T>, x: T): Option<T> {
    var k := IndexOf(s, x);
    if k + 1 < |s| then Some(s[k + 1]) else None
  }

  lemma NextSiblingSplit<T>(a: seq<T>, x: T, b: seq<T>)
    requires x !in a
    ensures NextSibling(a + [x] + b, x) == FirstOf(b)
  {
    IndexOfSplit(a, x, b);
  }

  function FirstOf<T>(s: seq<T>): Option<T> {
    if s == [] then None else Some(s[0])
  }

  /** Moving or adding a child in front of the first of `d`, or to the end when `d` is empty. */
  lemma MoveBeforeRest<T>(a: seq<T>, x: T, b: seq<T>, c: seq<T>, d: seq<T>)
    requires NoDup(a + [x] + b) && a + b == c + d
    ensures InsertBefore(a + [x] + b, x, FirstOf(d)) == c + [x] + d
    ensures NoDup(c + [x] + d)
  {
    if d == [] {
      MoveLast(a, x, b);
      assert a + b == c && c + [x] + d == c + [x];
    } else {
      assert c + d == c + [d[0]] + d[1..] && [d[0]] + d[1..] == d;
      MoveBefore(a, x, b, c, d[0], d[1..]);
    }
  }

  lemma NewBeforeRest<T>(c: seq<T>, x: T, d: seq<T>)
    requires NoDup(c + d) && x !in c + d
    ensures InsertBefore(c + d, x, FirstOf(d)) == c + [x] + d
    ensures NoDup(c + [x] + d)
  {
    if d == [] {
      assert c + d == c && c + [x] + d == c + [x];
      NewLast(c, x);
    } else {
      assert c + d == c + [d[0]] + d[1..] && [d[0]] + d[1..] == d;
      NewBefore(c, x, d[0], d[1..]);
    }
  }

  ghost predicate AllBelow(s: seq<Elm>, n: Elm) {
    forall k :: 0 <= k < |s| ==> s[k] < n
  }

  lemma {:induction false} WithoutBelow(s: seq<Elm>, x: Elm, n: Elm)
    requires AllBelow(s, n)
    ensures AllBelow(Without(s, x), n)
    decreases |s|
  {
    if s != [] {
      WithoutBelow(s[1..], x, n);
    }
  }

  lemma {:induction false} PutBelow(s: seq<Elm>, x: Elm, ref: Option<Elm>, n: Elm)
    requires AllBelow(s, n) && x < n
    ensures AllBelow(PutBefore(s, x, ref), n)
    decreases |s|
  {
    if s != [] {
      PutBelow(s[1..], x, ref, n);
    }
  }

  lemma InsertBelow(s: seq<Elm>, x: Elm, ref: Option<Elm>, n: Elm)
    requires AllBelow(s, n) && x < n
    ensures AllBelow(InsertBefore(s, x, ref), n)
  {
    WithoutBelow(s, x, n);
    PutBelow(Without(s, x), x, ref, n);
  }
}
