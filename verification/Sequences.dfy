/** Facts about any sequences. */
module Sequences {

  lemma Assoc<T>(a: seq<T>, b: seq<T>, c: seq<T>)
    ensures a + (b + c) == (a + b) + c
  {
  }

  lemma HeadTail<T>(s: seq<T>)
    requires s != []
    ensures s == [s[0]] + s[1..]
  {
  }

  lemma TakeNext<T>(s: seq<T>, n: nat)
    requires n < |s|
    ensures s[..n + 1] == s[..n] + [s[n]]
  {
  }

  lemma SplitAround<T>(s: seq<T>, n: nat)
    requires n < |s|
    ensures s == s[..n] + ([s[n]] + s[n + 1..]) && s[..n + 1] == s[..n] + [s[n]]
  {
  }

  lemma TakeAll<T>(s: seq<T>)
    ensures s[..|s|] == s
  {
  }

  lemma TakeDrop<T>(s: seq<T>, n: nat)
    requires n <= |s|
    ensures s == s[..n] + s[n..]
  {
  }

  /** Taking all of a first part and some of a second. */
  lemma TakeMore<T>(a: seq<T>, b: seq<T>, k: nat)
    requires k <= |b|
    ensures (a + b)[..|a| + k] == a + b[..k]
    ensures k < |b| ==> (a + b)[|a| + k] == b[k]
  {
  }

  /** Two parts of a suffix. */
  lemma SplitSuffix<T>(s: seq<T>, p: nat, u: seq<T>, v: seq<T>)
    requires p <= |s| && u + v == s[p..]
    ensures p + |u| <= |s| && u == s[p..p + |u|] && v == s[p + |u|..]
  {
    assert u == (u + v)[..|u|] && v == (u + v)[|u|..];
  }

  /** A first part of a slice. */
  lemma PrefixOfSlice<T>(s: seq<T>, p: nat, q: nat, a: seq<T>)
    requires p <= q <= |s| && a <= s[p..q]
    ensures p + |a| <= q && a == s[p..p + |a|]
  {
    assert a == s[p..q][..|a|];
  }

  /** Two slices side by side. */
  lemma JoinSlices<T>(s: seq<T>, a: nat, b: nat, c: nat)
    requires a <= b <= c <= |s|
    ensures s[a..b] + s[b..c] == s[a..c]
  {
  }

  /** A slice of a first part. */
  lemma SliceOfTake<T>(s: seq<T>, a: nat, b: nat, q: nat)
    requires a <= b <= q <= |s|
    ensures s[..q][a..b] == s[a..b] && s[..q][a..] == s[a..q]
  {
  }

  /** Taking some of a first part. */
  lemma TakeFirst<T>(a: seq<T>, b: seq<T>, n: nat)
    requires n <= |a|
    ensures (a + b)[..n] == a[..n]
  {
  }
}
