/**
 The two-ended keyed diff of `updateChildren` on values: what every turn of its loop keeps. The code
 itself is in `VuePatch`.
 */
module VueDiff {
  import opened Options
  import opened VueDom

  /** A key is looked up by its property name, but compared together with its type. */
  datatype Key = NoKey | Key(name: string, numeric: bool)

  /** What `sameVnode` looks at. */
  datatype Info = Info(key: Key, tag: string, isComment: bool, hasData: bool, inputType: string,
                       isAsyncPlaceholder: bool, asyncFactory: nat, asyncError: bool)

  predicate IsTextInputType(t: string) {
    t in {"text", "number", "password", "search", "email", "tel", "url"}
  }

  predicate SameInputType(a: Info, b: Info) {
    a.tag != "input" || a.inputType == b.inputType || (IsTextInputType(a.inputType) && IsTextInputType(b.inputType))
  }

  predicate SameVnode(a: Info, b: Info) {
    && a.key == b.key
    && (|| (a.tag == b.tag && a.isComment == b.isComment && a.hasData == b.hasData && SameInputType(a, b))
        || (a.isAsyncPlaceholder && a.asyncFactory == b.asyncFactory && !b.asyncError))
  }

  /** No two keys share a property name; this is what `checkDuplicateKeys` warns about. */
  ghost predicate DistinctKeys(s: seq<Info>) {
    forall i, j :: 0 <= i < j < |s| && s[i].key.Key? && s[j].key.Key? ==> s[i].key.name != s[j].key.name
  }

  /** Where the element of a new vnode comes from. */
  datatype Origin = Unset | Created(elm: Elm) | Reused(index: nat)

  /** The two lists, and the elements of the old one. */
  datatype Update = Update(olds: seq<Info>, elms: seq<Elm>, news: seq<Info>, bound: Elm)

  ghost predicate ValidUpdate(t: Update) {
    && |t.olds| == |t.elms| && NoDup(t.elms) && DistinctKeys(t.news)
    && AllBelow(t.elms, t.bound)
  }

  /**
   The state of the loop: the two windows (end exclusive), which old vnodes are still in place, where the
   elements of the new ones come from, and the parent's children. Elements below `next` exist.
   */
  datatype State = State(oldStart: nat, oldEnd: nat, newStart: nat, newEnd: nat,
                         live: seq<bool>, from: seq<Origin>, dom: seq<Elm>, next: Elm)

  function ElmOf(t: Update, o: Origin): Elm
    requires o.Reused? ==> o.index < |t.elms|
  {
    match o
    case Reused(i) => t.elms[i]
    case Created(e) => e
    case Unset => 0
  }

  predicate Grounded(t: Update, from: seq<Origin>) {
    forall o <- from :: o.Reused? ==> o.index < |t.elms|
  }

  function Elms(t: Update, from: seq<Origin>): seq<Elm>
    requires Grounded(t, from)
  {
    if from == [] then [] else [ElmOf(t, from[0])] + Elms(t, from[1..])
  }

  lemma {:induction false} ElmsAppend(t: Update, a: seq<Origin>, b: seq<Origin>)
    requires Grounded(t, a) && Grounded(t, b)
    ensures Grounded(t, a + b) && Elms(t, a + b) == Elms(t, a) + Elms(t, b)
    decreases |a|
  {
    if a == [] {
      assert a + b == b;
    } else {
      ElmsAppend(t, a[1..], b);
      assert (a + b)[1..] == a[1..] + b && (a + b)[0] == a[0];
    }
  }

  lemma {:induction false} ElmsAt(t: Update, from: seq<Origin>, k: nat)
    requires Grounded(t, from) && k < |from|
    ensures |Elms(t, from)| == |from| && Elms(t, from)[k] == ElmOf(t, from[k])
    decreases |from|
  {
    if |from| > 1 {
      ElmsAt(t, from[1..], if k == 0 then 0 else k - 1);
    } else {
      assert Elms(t, from[1..]) == [];
    }
  }

  /** The elements of the old vnodes still in place in a window. */
  function Live(elms: seq<Elm>, live: seq<bool>, lo: nat, hi: nat): seq<Elm>
    requires lo <= hi <= |elms| == |live|
    decreases hi - lo
  {
    if lo == hi then []
    else (if live[lo] then [elms[lo]] else []) + Live(elms, live, lo + 1, hi)
  }

  lemma {:induction false} LiveSplit(elms: seq<Elm>, live: seq<bool>, lo: nat, mid: nat, hi: nat)
    requires lo <= mid <= hi <= |elms| == |live|
    ensures Live(elms, live, lo, hi) == Live(elms, live, lo, mid) + Live(elms, live, mid, hi)
    decreases mid - lo
  {
    if lo < mid {
      LiveSplit(elms, live, lo + 1, mid, hi);
    }
  }

  lemma {:induction false} LiveSame(elms: seq<Elm>, live: seq<bool>, live': seq<bool>, lo: nat, hi: nat)
    requires lo <= hi <= |elms| == |live| == |live'|
    requires forall k :: lo <= k < hi ==> live[k] == live'[k]
    ensures Live(elms, live, lo, hi) == Live(elms, live', lo, hi)
    decreases hi - lo
  {
    if lo < hi {
      var head := if live[lo] then [elms[lo]] else [];
      LiveSame(elms, live, live', lo + 1, hi);
      assert Live(elms, live, lo, hi) == head + Live(elms, live, lo + 1, hi);
      assert Live(elms, live', lo, hi) == head + Live(elms, live', lo + 1, hi);
    }
  }

  lemma LiveOne(elms: seq<Elm>, live: seq<bool>, i: nat)
    requires i < |elms| == |live|
    ensures Live(elms, live, i, i + 1) == if live[i] then [elms[i]] else []
  {
    assert Live(elms, live, i + 1, i + 1) == [];
  }

  /** An old vnode in place splits the window around it. */
  lemma LiveAround(elms: seq<Elm>, live: seq<bool>, lo: nat, i: nat, hi: nat)
    requires lo <= i < hi <= |elms| == |live|
    ensures Live(elms, live, lo, hi)
            == Live(elms, live, lo, i) + (if live[i] then [elms[i]] else []) + Live(elms, live, i + 1, hi)
  {
    LiveSplit(elms, live, lo, i, hi);
    LiveSplit(elms, live, i, i + 1, hi);
    LiveOne(elms, live, i);
  }

  lemma LiveWithout(elms: seq<Elm>, live: seq<bool>, lo: nat, i: nat, hi: nat)
    requires lo <= i < hi <= |elms| == |live|
    ensures Live(elms, live[i := false], lo, hi) == Live(elms, live, lo, i) + Live(elms, live, i + 1, hi)
  {
    var dead := live[i := false];
    LiveAround(elms, dead, lo, i, hi);
    LiveSame(elms, live, dead, lo, i);
    LiveSame(elms, live, dead, i + 1, hi);
  }

  // ---- the invariant ----

  ghost predicate Windows(t: Update, s: State) {
    && s.oldStart <= s.oldEnd <= |t.olds| && s.newStart <= s.newEnd <= |t.news|
    && |s.live| == |t.olds| == |t.elms| && |s.from| == |t.news|
  }

  predicate Open(s: State, j: nat) {
    s.newStart <= j < s.newEnd
  }

  predicate InPlace(s: State, i: nat)
    requires i < |s.live|
  {
    s.oldStart <= i < s.oldEnd && s.live[i]
  }

  ghost predicate Consumed(s: State, i: nat) {
    exists j :: 0 <= j < |s.from| && s.from[j] == Reused(i)
  }

  /** New vnodes have an element exactly outside the window. */
  ghost predicate Assigned(t: Update, s: State)
    requires Windows(t, s)
  {
    forall j :: 0 <= j < |s.from| ==> (s.from[j] == Unset <==> Open(s, j))
  }

  /** Elements are reused between vnodes that are the same, and created ones are new. */
  ghost predicate WellSourced(t: Update, s: State)
    requires Windows(t, s)
  {
    forall j :: 0 <= j < |s.from| ==>
      && (s.from[j].Reused? ==> s.from[j].index < |t.olds| && SameVnode(t.olds[s.from[j].index], t.news[j]))
      && (s.from[j].Created? ==> t.bound <= s.from[j].elm < s.next)
  }

  /** An old vnode has been used exactly if it is outside the window or no longer in place. */
  ghost predicate UsedUp(t: Update, s: State)
    requires Windows(t, s)
  {
    forall i :: 0 <= i < |t.olds| ==> (Consumed(s, i) <==> !InPlace(s, i))
  }

  /** With distinct old keys, a keyed vnode is created only if it has no counterpart. */
  ghost predicate NoNeedlessCreation(t: Update, s: State)
    requires Windows(t, s)
  {
    DistinctKeys(t.olds) ==>
      forall i, j :: 0 <= j < |s.from| && s.from[j].Created? && t.news[j].key.Key? && 0 <= i < |t.olds|
                     ==> !SameVnode(t.olds[i], t.news[j])
  }

  /** Finished vnodes, the old ones still in place, finished vnodes. */
  function Shape(t: Update, s: State): seq<Elm>
    requires Windows(t, s) && Grounded(t, s.from)
  {
    Elms(t, s.from[..s.newStart]) + Live(t.elms, s.live, s.oldStart, s.oldEnd) + Elms(t, s.from[s.newEnd..])
  }

  ghost predicate Fine(dom: seq<Elm>, next: Elm) {
    NoDup(dom) && AllBelow(dom, next)
  }

  ghost predicate DomShape(t: Update, s: State)
    requires Windows(t, s)
  {
    Grounded(t, s.from) && s.dom == Shape(t, s) && Fine(s.dom, s.next) && t.bound <= s.next
  }

  ghost predicate Invariant(t: Update, s: State) {
    && ValidUpdate(t) && Windows(t, s)
    && Assigned(t, s) && WellSourced(t, s) && UsedUp(t, s) && NoNeedlessCreation(t, s) && DomShape(t, s)
  }

  // ---- the start ----

  function Start(t: Update): State {
    State(0, |t.olds|, 0, |t.news|, seq(|t.olds|, _ => true), seq(|t.news|, _ => Unset), t.elms, t.bound)
  }

  lemma {:induction false} AllLive(elms: seq<Elm>, live: seq<bool>, lo: nat)
    requires lo <= |elms| == |live| && forall k :: 0 <= k < |live| ==> live[k]
    ensures Live(elms, live, lo, |elms|) == elms[lo..]
    decreases |elms| - lo
  {
    if lo < |elms| {
      AllLive(elms, live, lo + 1);
      assert elms[lo..] == [elms[lo]] + elms[lo + 1..];
    }
  }

  lemma StartInvariant(t: Update)
    requires ValidUpdate(t)
    ensures Invariant(t, Start(t))
  {
    var s := Start(t);
    AllLive(t.elms, s.live, 0);
    assert s.from[..0] == [] && s.from[|t.news|..] == [];
    assert t.elms == [] + t.elms[0..] + [];
  }

  // ---- the turns of the loop ----

  function SkipFront(s: State): State {
    s.(oldStart := s.oldStart + 1)
  }

  function SkipBack(s: State): State
    requires s.oldEnd > 0
  {
    s.(oldEnd := s.oldEnd - 1)
  }

  /** Moving on in the old window over a vnode that is not in place. */
  lemma SkipKeeps(t: Update, s: State, s': State)
    requires Invariant(t, s) && Windows(t, s') && s' == s.(oldStart := s'.oldStart, oldEnd := s'.oldEnd)
    requires Live(t.elms, s.live, s.oldStart, s.oldEnd) == Live(t.elms, s.live, s'.oldStart, s'.oldEnd)
    requires forall i :: 0 <= i < |t.olds| ==> (InPlace(s, i) <==> InPlace(s', i))
    ensures Invariant(t, s')
  {
    forall i | 0 <= i < |t.olds| ensures Consumed(s', i) <==> !InPlace(s', i) {
      assert Consumed(s, i) <==> Consumed(s', i);
    }
  }

  lemma SkipFrontKeeps(t: Update, s: State)
    requires Invariant(t, s) && s.oldStart < s.oldEnd && !s.live[s.oldStart]
    ensures Invariant(t, SkipFront(s))
  {
    SkipKeeps(t, s, SkipFront(s));
  }

  lemma SkipBackKeeps(t: Update, s: State)
    requires Invariant(t, s) && s.oldStart < s.oldEnd && !s.live[s.oldEnd - 1]
    ensures Invariant(t, SkipBack(s))
  {
    LiveDrop(t.elms, s.live, s.oldStart, s.oldEnd);
    SkipKeeps(t, s, SkipBack(s));
  }

  lemma LiveDrop(elms: seq<Elm>, live: seq<bool>, lo: nat, hi: nat)
    requires lo < hi <= |elms| == |live| && !live[hi - 1]
    ensures Live(elms, live, lo, hi) == Live(elms, live, lo, hi - 1)
  {
    LiveSplit(elms, live, lo, hi - 1, hi);
    LiveOne(elms, live, hi - 1);
    assert Live(elms, live, lo, hi - 1) + [] == Live(elms, live, lo, hi - 1);
  }

  /** `s'` is `s` after new vnode `j` has taken over the element of old vnode `i`. */
  ghost predicate TakesOver(t: Update, s: State, s': State, i: nat, j: nat) {
    && Windows(t, s) && Windows(t, s')
    && i < |t.olds| && InPlace(s, i) && j < |t.news| && Open(s, j) && SameVnode(t.olds[i], t.news[j])
    && s'.from == s.from[j := Reused(i)] && s'.next == s.next
    && (forall k :: 0 <= k < |t.news| ==> (Open(s', k) <==> Open(s, k) && k != j))
    && (forall k :: 0 <= k < |t.olds| ==> (InPlace(s', k) <==> InPlace(s, k) && k != i))
  }

  lemma TakeOverKeeps(t: Update, s: State, s': State, i: nat, j: nat)
    requires Invariant(t, s) && TakesOver(t, s, s', i, j)
    ensures Assigned(t, s') && WellSourced(t, s') && UsedUp(t, s') && NoNeedlessCreation(t, s')
    ensures Grounded(t, s'.from)
  {
    forall k | 0 <= k < |t.olds|
      ensures Consumed(s', k) <==> !InPlace(s', k)
    {
      if k == i {
        assert s'.from[j] == Reused(i);
      } else {
        if Consumed(s, k) {
          var j' :| 0 <= j' < |s.from| && s.from[j'] == Reused(k);
          assert s'.from[j'] == Reused(k);
        }
        if Consumed(s', k) {
          var j' :| 0 <= j' < |s'.from| && s'.from[j'] == Reused(k);
          assert s.from[j'] == Reused(k);
        }
      }
    }
  }

  /** Both windows shrink at the front; nothing moves. */
  function StartStart(s: State): State
    requires s.newStart < |s.from|
  {
    s.(oldStart := s.oldStart + 1, newStart := s.newStart + 1, from := s.from[s.newStart := Reused(s.oldStart)])
  }

  lemma ElmsSnoc(t: Update, from: seq<Origin>, k: nat)
    requires Grounded(t, from) && k < |from|
    ensures Elms(t, from[..k + 1]) == Elms(t, from[..k]) + [ElmOf(t, from[k])]
    ensures Elms(t, from[k..]) == [ElmOf(t, from[k])] + Elms(t, from[k + 1..])
  {
    ElmsAppend(t, from[..k], [from[k]]);
    assert from[..k + 1] == from[..k] + [from[k]];
    assert [from[k]][1..] == [];
    assert from[k..][1..] == from[k + 1..];
  }

  lemma ElmsUpdate(t: Update, from: seq<Origin>, j: nat, o: Origin, lo: nat, hi: nat)
    requires Grounded(t, from) && (o.Reused? ==> o.index < |t.elms|) && lo <= j <= hi <= |from| && j < |from|
    ensures Grounded(t, from[j := o])
    ensures Elms(t, from[j := o][..lo]) == Elms(t, from[..lo])
    ensures j < hi ==> Elms(t, from[j := o][hi..]) == Elms(t, from[hi..])
  {
    assert from[j := o][..lo] == from[..lo];
    assert j < hi ==> from[j := o][hi..] == from[hi..];
  }

  /** The children, once a vnode at the front of the new window has got its element. */
  lemma FrontGrows(t: Update, s: State, j: nat, o: Origin)
    requires Windows(t, s) && Grounded(t, s.from) && (o.Reused? ==> o.index < |t.elms|)
    requires j == s.newStart < s.newEnd
    ensures Grounded(t, s.from[j := o])
    ensures Elms(t, s.from[j := o][..j + 1]) == Elms(t, s.from[..j]) + [ElmOf(t, o)]
    ensures Elms(t, s.from[j := o][s.newEnd..]) == Elms(t, s.from[s.newEnd..])
  {
    ElmsUpdate(t, s.from, j, o, j, s.newEnd);
    ElmsSnoc(t, s.from[j := o], j);
  }

  lemma BackGrows(t: Update, s: State, j: nat, o: Origin)
    requires Windows(t, s) && Grounded(t, s.from) && (o.Reused? ==> o.index < |t.elms|)
    requires s.newStart <= j == s.newEnd - 1
    ensures Grounded(t, s.from[j := o])
    ensures Elms(t, s.from[j := o][..s.newStart]) == Elms(t, s.from[..s.newStart])
    ensures Elms(t, s.from[j := o][j..]) == [ElmOf(t, o)] + Elms(t, s.from[s.newEnd..])
  {
    ElmsUpdate(t, s.from, j, o, s.newStart, s.newEnd);
    ElmsSnoc(t, s.from[j := o], j);
  }

  lemma Regroup(p: seq<Elm>, x: Elm, l: seq<Elm>, q: seq<Elm>)
    ensures p + ([x] + l) + q == (p + [x]) + l + q
    ensures p + (l + [x]) + q == p + l + ([x] + q)
  {}

  lemma StartStartShape(t: Update, s: State)
    requires Windows(t, s) && DomShape(t, s) && s.oldStart < s.oldEnd && s.newStart < s.newEnd && s.live[s.oldStart]
    ensures DomShape(t, StartStart(s))
  {
    var i, j := s.oldStart, s.newStart;
    FrontGrows(t, s, j, Reused(i));
    Regroup(Elms(t, s.from[..j]), t.elms[i], Live(t.elms, s.live, i + 1, s.oldEnd), Elms(t, s.from[s.newEnd..]));
  }

  lemma StartStartKeeps(t: Update, s: State)
    requires Invariant(t, s) && s.oldStart < s.oldEnd && s.newStart < s.newEnd && s.live[s.oldStart]
    requires SameVnode(t.olds[s.oldStart], t.news[s.newStart])
    ensures Invariant(t, StartStart(s))
  {
    var s', i, j := StartStart(s), s.oldStart, s.newStart;
    TakeOverKeeps(t, s, s', i, j);
    StartStartShape(t, s);
  }

  function EndEnd(s: State): State
    requires 0 < s.newEnd <= |s.from| && 0 < s.oldEnd
  {
    s.(oldEnd := s.oldEnd - 1, newEnd := s.newEnd - 1, from := s.from[s.newEnd - 1 := Reused(s.oldEnd - 1)])
  }

  lemma LiveSnoc(elms: seq<Elm>, live: seq<bool>, lo: nat, hi: nat)
    requires lo < hi <= |elms| == |live| && live[hi - 1]
    ensures Live(elms, live, lo, hi) == Live(elms, live, lo, hi - 1) + [elms[hi - 1]]
  {
    LiveSplit(elms, live, lo, hi - 1, hi);
    LiveOne(elms, live, hi - 1);
  }

  lemma EndEndSameShape(t: Update, s: State)
    requires Windows(t, s) && Grounded(t, s.from)
    requires s.oldStart < s.oldEnd && s.newStart < s.newEnd && s.live[s.oldEnd - 1]
    ensures Grounded(t, EndEnd(s).from) && Shape(t, EndEnd(s)) == Shape(t, s)
  {
    var i, j := s.oldEnd - 1, s.newEnd - 1;
    BackGrows(t, s, j, Reused(i));
    LiveSnoc(t.elms, s.live, s.oldStart, s.oldEnd);
    Regroup(Elms(t, s.from[..s.newStart]), t.elms[i], Live(t.elms, s.live, s.oldStart, i), Elms(t, s.from[s.newEnd..]));
  }

  lemma EndEndShape(t: Update, s: State)
    requires Windows(t, s) && DomShape(t, s) && s.oldStart < s.oldEnd && s.newStart < s.newEnd && s.live[s.oldEnd - 1]
    ensures DomShape(t, EndEnd(s))
  {
    EndEndSameShape(t, s);
  }

  lemma EndEndKeeps(t: Update, s: State)
    requires Invariant(t, s) && s.oldStart < s.oldEnd && s.newStart < s.newEnd && s.live[s.oldEnd - 1]
    requires SameVnode(t.olds[s.oldEnd - 1], t.news[s.newEnd - 1])
    ensures Invariant(t, EndEnd(s))
  {
    var s', i, j := EndEnd(s), s.oldEnd - 1, s.newEnd - 1;
    TakeOverKeeps(t, s, s', i, j);
    EndEndShape(t, s);
  }

  /** The old vnode at the front becomes the new one at the back: its element moves behind the old window. */
  function MoveRight(s: State): State
    requires 0 < s.newEnd <= |s.from|
  {
    s.(oldStart := s.oldStart + 1, newEnd := s.newEnd - 1, from := s.from[s.newEnd - 1 := Reused(s.oldStart)])
  }

  lemma SlideRight(p: seq<Elm>, x: Elm, l: seq<Elm>, y: Elm, q: seq<Elm>)
    requires NoDup(p + ([x] + (l + [y])) + q)
    ensures var s := p + ([x] + (l + [y])) + q;
            InsertBefore(s, x, NextSibling(s, y)) == p + (l + [y]) + ([x] + q)
    ensures NoDup(p + (l + [y]) + ([x] + q))
  {
    SlideRightSibling(p, x, l, y, q);
    SlideRightOver(p, x, l + [y], q);
  }

  lemma SlideRightOver(p: seq<Elm>, x: Elm, m: seq<Elm>, q: seq<Elm>)
    requires NoDup(p + ([x] + m) + q)
    ensures InsertBefore(p + ([x] + m) + q, x, FirstOf(q)) == p + m + ([x] + q)
    ensures NoDup(p + m + ([x] + q))
  {
    assert p + ([x] + m) + q == p + [x] + (m + q);
    assert p + (m + q) == (p + m) + q;
    MoveBeforeRest(p, x, m + q, p + m, q);
    assert p + m + [x] + q == p + m + ([x] + q);
  }

  lemma SlideRightSibling(p: seq<Elm>, x: Elm, l: seq<Elm>, y: Elm, q: seq<Elm>)
    requires NoDup(p + ([x] + (l + [y])) + q)
    ensures NextSibling(p + ([x] + (l + [y])) + q, y) == FirstOf(q)
  {
    assert p + ([x] + (l + [y])) + q == (p + [x] + l) + [y] + q;
    NoDupSplit(p + [x] + l, y, q);
    NextSiblingSplit(p + [x] + l, y, q);
  }

  lemma MoveRightShape(t: Update, s: State) returns (l: seq<Elm>)
    requires Windows(t, s) && Grounded(t, s.from) && s.oldStart < s.oldEnd - 1 && s.newStart < s.newEnd
    requires s.live[s.oldStart] && s.live[s.oldEnd - 1]
    ensures Grounded(t, MoveRight(s).from)
    ensures var p, q := Elms(t, s.from[..s.newStart]), Elms(t, s.from[s.newEnd..]);
            var x, y := t.elms[s.oldStart], t.elms[s.oldEnd - 1];
            && Shape(t, s) == p + ([x] + (l + [y])) + q
            && Shape(t, MoveRight(s)) == p + (l + [y]) + ([x] + q)
  {
    l := Live(t.elms, s.live, s.oldStart + 1, s.oldEnd - 1);
    LiveSnoc(t.elms, s.live, s.oldStart + 1, s.oldEnd);
    BackGrows(t, s, s.newEnd - 1, Reused(s.oldStart));
  }

  lemma MoveRightDom(t: Update, s: State)
    requires Windows(t, s) && DomShape(t, s) && AllBelow(t.elms, t.bound)
    requires s.oldStart < s.oldEnd - 1 && s.newStart < s.newEnd && s.live[s.oldStart] && s.live[s.oldEnd - 1]
    ensures Grounded(t, MoveRight(s).from)
    ensures DomMovedRight(t, s) == Shape(t, MoveRight(s)) && Fine(DomMovedRight(t, s), s.next)
  {
    var x, y := t.elms[s.oldStart], t.elms[s.oldEnd - 1];
    var l := MoveRightShape(t, s);
    SlideRight(Elms(t, s.from[..s.newStart]), x, l, y, Elms(t, s.from[s.newEnd..]));
    InsertBelow(s.dom, x, NextSibling(s.dom, y), s.next);
  }

  lemma MoveRightKeeps(t: Update, s: State, dom: seq<Elm>)
    requires Invariant(t, s) && s.oldStart < s.oldEnd - 1 && s.newStart < s.newEnd
    requires s.live[s.oldStart] && s.live[s.oldEnd - 1]
    requires SameVnode(t.olds[s.oldStart], t.news[s.newEnd - 1])
    requires Grounded(t, MoveRight(s).from) && dom == Shape(t, MoveRight(s)) && Fine(dom, s.next)
    ensures Invariant(t, MoveRight(s).(dom := dom))
  {
    TakeOverKeeps(t, s, MoveRight(s).(dom := dom), s.oldStart, s.newEnd - 1);
  }

  /** The old vnode at the back becomes the new one at the front: its element moves before the old window. */
  function MoveLeft(s: State): State
    requires s.newStart < |s.from| && 0 < s.oldEnd
  {
    s.(oldEnd := s.oldEnd - 1, newStart := s.newStart + 1, from := s.from[s.newStart := Reused(s.oldEnd - 1)])
  }

  /** A child further to the right moves in front of `y`. */
  lemma SlideLeft(p: seq<Elm>, y: Elm, l: seq<Elm>, x: Elm, r: seq<Elm>, q: seq<Elm>)
    requires NoDup(p + ([y] + (l + ([x] + r))) + q)
    ensures InsertBefore(p + ([y] + (l + ([x] + r))) + q, x, Some(y)) == (p + [x]) + ([y] + (l + r)) + q
    ensures NoDup((p + [x]) + ([y] + (l + r)) + q)
  {
    assert p + ([y] + (l + ([x] + r))) + q == (p + [y] + l) + [x] + (r + q);
    assert (p + [y] + l) + (r + q) == p + [y] + (l + r + q);
    MoveBefore(p + [y] + l, x, r + q, p, y, l + r + q);
    assert p + [x] + ([y] + (l + r + q)) == (p + [x]) + ([y] + (l + r)) + q;
  }

  lemma MoveLeftShape(t: Update, s: State) returns (l: seq<Elm>)
    requires Windows(t, s) && Grounded(t, s.from) && s.oldStart < s.oldEnd - 1 && s.newStart < s.newEnd
    requires s.live[s.oldStart] && s.live[s.oldEnd - 1]
    ensures Grounded(t, MoveLeft(s).from)
    ensures var p, q := Elms(t, s.from[..s.newStart]), Elms(t, s.from[s.newEnd..]);
            var x, y := t.elms[s.oldEnd - 1], t.elms[s.oldStart];
            && Shape(t, s) == p + ([y] + (l + ([x] + []))) + q
            && Shape(t, MoveLeft(s)) == (p + [x]) + ([y] + (l + [])) + q
  {
    var i := s.oldEnd - 1;
    l := Live(t.elms, s.live, s.oldStart + 1, i);
    LiveSnoc(t.elms, s.live, s.oldStart + 1, s.oldEnd);
    LiveCons(t.elms, s.live, s.oldStart, s.oldEnd);
    LiveCons(t.elms, s.live, s.oldStart, i);
    NoTail(t.elms[i], l);
    FrontGrows(t, s, s.newStart, Reused(i));
  }

  lemma LiveCons(elms: seq<Elm>, live: seq<bool>, lo: nat, hi: nat)
    requires lo < hi <= |elms| == |live| && live[lo]
    ensures Live(elms, live, lo, hi) == [elms[lo]] + Live(elms, live, lo + 1, hi)
  {
  }

  lemma NoTail(x: Elm, l: seq<Elm>)
    ensures [x] + [] == [x] && l + [] == l
  {
  }

  lemma MoveLeftDom(t: Update, s: State)
    requires Windows(t, s) && DomShape(t, s) && AllBelow(t.elms, t.bound)
    requires s.oldStart < s.oldEnd - 1 && s.newStart < s.newEnd && s.live[s.oldStart] && s.live[s.oldEnd - 1]
    ensures Grounded(t, MoveLeft(s).from)
    ensures var dom := InsertBefore(s.dom, t.elms[s.oldEnd - 1], Some(t.elms[s.oldStart]));
            dom == Shape(t, MoveLeft(s)) && Fine(dom, s.next)
  {
    var x, y := t.elms[s.oldEnd - 1], t.elms[s.oldStart];
    var l := MoveLeftShape(t, s);
    SlideLeft(Elms(t, s.from[..s.newStart]), y, l, x, [], Elms(t, s.from[s.newEnd..]));
    InsertBelow(s.dom, x, Some(y), s.next);
  }

  lemma MoveLeftKeeps(t: Update, s: State, dom: seq<Elm>)
    requires Invariant(t, s) && s.oldStart < s.oldEnd - 1 && s.newStart < s.newEnd
    requires s.live[s.oldStart] && s.live[s.oldEnd - 1]
    requires SameVnode(t.olds[s.oldEnd - 1], t.news[s.newStart])
    requires Grounded(t, MoveLeft(s).from) && dom == Shape(t, MoveLeft(s)) && Fine(dom, s.next)
    ensures Invariant(t, MoveLeft(s).(dom := dom))
  {
    TakeOverKeeps(t, s, MoveLeft(s).(dom := dom), s.oldEnd - 1, s.newStart);
  }

  /** An old vnode inside the window becomes the new one at the front, and leaves a hole. */
  function MoveMiddle(s: State, i: nat): State
    requires i < |s.live| && s.newStart < |s.from|
  {
    s.(newStart := s.newStart + 1, live := s.live[i := false], from := s.from[s.newStart := Reused(i)])
  }

  lemma MoveMiddleShape(t: Update, s: State, i: nat) returns (l: seq<Elm>, r: seq<Elm>)
    requires Windows(t, s) && Grounded(t, s.from) && s.oldStart < i < s.oldEnd && s.newStart < s.newEnd
    requires s.live[s.oldStart] && s.live[i]
    ensures Grounded(t, MoveMiddle(s, i).from)
    ensures var p, q, x, y := Elms(t, s.from[..s.newStart]), Elms(t, s.from[s.newEnd..]), t.elms[i], t.elms[s.oldStart];
            && Shape(t, s) == p + ([y] + (l + ([x] + r))) + q
            && Shape(t, MoveMiddle(s, i)) == (p + [x]) + ([y] + (l + r)) + q
  {
    l, r := Live(t.elms, s.live, s.oldStart + 1, i), Live(t.elms, s.live, i + 1, s.oldEnd);
    LiveAround(t.elms, s.live, s.oldStart + 1, i, s.oldEnd);
    LiveWithout(t.elms, s.live, s.oldStart + 1, i, s.oldEnd);
    assert l + [t.elms[i]] + r == l + ([t.elms[i]] + r);
    FrontGrows(t, s, s.newStart, Reused(i));
  }

  lemma MoveMiddleDom(t: Update, s: State, i: nat)
    requires Windows(t, s) && DomShape(t, s) && AllBelow(t.elms, t.bound)
    requires s.oldStart < i < s.oldEnd && s.newStart < s.newEnd && s.live[s.oldStart] && s.live[i]
    ensures Grounded(t, MoveMiddle(s, i).from)
    ensures var dom := InsertBefore(s.dom, t.elms[i], Some(t.elms[s.oldStart]));
            dom == Shape(t, MoveMiddle(s, i)) && Fine(dom, s.next)
  {
    var l, r := MoveMiddleShape(t, s, i);
    SlideLeft(Elms(t, s.from[..s.newStart]), t.elms[s.oldStart], l, t.elms[i], r, Elms(t, s.from[s.newEnd..]));
    InsertBelow(s.dom, t.elms[i], Some(t.elms[s.oldStart]), s.next);
  }

  lemma MoveMiddleKeeps(t: Update, s: State, i: nat, dom: seq<Elm>)
    requires Invariant(t, s) && s.oldStart < i < s.oldEnd && s.newStart < s.newEnd
    requires s.live[s.oldStart] && s.live[i]
    requires SameVnode(t.olds[i], t.news[s.newStart])
    requires Grounded(t, MoveMiddle(s, i).from) && dom == Shape(t, MoveMiddle(s, i)) && Fine(dom, s.next)
    ensures Invariant(t, MoveMiddle(s, i).(dom := dom))
  {
    TakeOverKeeps(t, s, MoveMiddle(s, i).(dom := dom), i, s.newStart);
  }

  /** What stands after the place where new elements go: the old window, then the finished vnodes. */
  function Rest(t: Update, s: State): seq<Elm>
    requires Windows(t, s) && Grounded(t, s.from)
  {
    Live(t.elms, s.live, s.oldStart, s.oldEnd) + Elms(t, s.from[s.newEnd..])
  }

  /** A new element for the new vnode at the front. */
  function Create(s: State): State
    requires s.newStart < |s.from|
  {
    s.(newStart := s.newStart + 1, next := s.next + 1, from := s.from[s.newStart := Created(s.next)])
  }

  lemma NewInFront(p: seq<Elm>, x: Elm, l: seq<Elm>, q: seq<Elm>)
    requires NoDup(p + l + q) && AllBelow(p + l + q, x)
    ensures InsertBefore(p + l + q, x, FirstOf(l + q)) == (p + [x]) + l + q
    ensures NoDup((p + [x]) + l + q)
  {
    assert p + l + q == p + (l + q);
    assert x !in p + l + q;
    NewBeforeRest(p, x, l + q);
    assert p + [x] + (l + q) == (p + [x]) + l + q;
  }

  lemma CreateDom(t: Update, s: State)
    requires Windows(t, s) && DomShape(t, s) && s.newStart < s.newEnd
    ensures Grounded(t, Create(s).from)
    ensures var dom := InsertBefore(s.dom, s.next, FirstOf(Rest(t, s)));
            dom == Shape(t, Create(s)) && Fine(dom, s.next + 1)
  {
    FrontGrows(t, s, s.newStart, Created(s.next));
    NewInFront(Elms(t, s.from[..s.newStart]), s.next, Live(t.elms, s.live, s.oldStart, s.oldEnd),
               Elms(t, s.from[s.newEnd..]));
    InsertBelow(s.dom, s.next, FirstOf(Rest(t, s)), s.next + 1);
  }

  /** A keyed new vnode may be created: it has no counterpart, or none that is still in place. */
  ghost predicate MayCreate(t: Update, s: State)
    requires Windows(t, s) && s.newStart < s.newEnd
  {
    DistinctKeys(t.olds) && t.news[s.newStart].key.Key? ==>
      forall i :: 0 <= i < |t.olds| && InPlace(s, i) ==> !SameVnode(t.olds[i], t.news[s.newStart])
  }

  /** An old vnode that has been used is the counterpart of no new vnode still open. */
  lemma UsedForAnother(t: Update, s: State, i: nat, j: nat)
    requires Invariant(t, s) && i < |t.olds| && !InPlace(s, i)
    requires j < |t.news| && Open(s, j) && t.news[j].key.Key?
    ensures t.olds[i].key.Key? ==> t.olds[i].key.name != t.news[j].key.name
  {
    assert Consumed(s, i);
    var j' :| 0 <= j' < |s.from| && s.from[j'] == Reused(i);
    assert SameVnode(t.olds[i], t.news[j']);
    assert j' != j;
  }

  lemma CreateBooks(t: Update, s: State, dom: seq<Elm>)
    requires Invariant(t, s) && s.newStart < s.newEnd && MayCreate(t, s)
    ensures var s' := Create(s).(dom := dom);
            Assigned(t, s') && WellSourced(t, s') && UsedUp(t, s') && NoNeedlessCreation(t, s')
  {
    var s', j := Create(s).(dom := dom), s.newStart;
    forall i | 0 <= i < |t.olds|
      ensures Consumed(s', i) <==> Consumed(s, i)
      ensures InPlace(s', i) <==> InPlace(s, i)
    {
      if Consumed(s, i) {
        var j' :| 0 <= j' < |s.from| && s.from[j'] == Reused(i);
        assert s'.from[j'] == Reused(i);
      }
      if Consumed(s', i) {
        var j' :| 0 <= j' < |s'.from| && s'.from[j'] == Reused(i);
        assert s.from[j'] == Reused(i);
      }
    }
    if DistinctKeys(t.olds) && t.news[j].key.Key? {
      forall i | 0 <= i < |t.olds|
        ensures !SameVnode(t.olds[i], t.news[j])
      {
        if !InPlace(s, i) {
          UsedForAnother(t, s, i, j);
        }
      }
    }
  }

  lemma CreateKeeps(t: Update, s: State, dom: seq<Elm>)
    requires Invariant(t, s) && s.newStart < s.newEnd && MayCreate(t, s)
    requires Grounded(t, Create(s).from) && dom == Shape(t, Create(s)) && Fine(dom, s.next + 1)
    ensures Invariant(t, Create(s).(dom := dom))
  {
    CreateBooks(t, s, dom);
  }

  // ---- the turns with the children moved ----

  function MovedRight(t: Update, s: State): State
    requires Windows(t, s) && s.oldStart < s.oldEnd && s.newStart < s.newEnd
  {
    MoveRight(s).(dom := DomMovedRight(t, s))
  }

  function DomMovedRight(t: Update, s: State): seq<Elm>
    requires Windows(t, s) && s.oldStart < s.oldEnd
  {
    InsertBefore(s.dom, t.elms[s.oldStart], NextSibling(s.dom, t.elms[s.oldEnd - 1]))
  }

  function MovedLeft(t: Update, s: State): State
    requires Windows(t, s) && s.oldStart < s.oldEnd && s.newStart < s.newEnd
  {
    MoveLeft(s).(dom := InsertBefore(s.dom, t.elms[s.oldEnd - 1], Some(t.elms[s.oldStart])))
  }

  function MovedMiddle(t: Update, s: State, i: nat): State
    requires Windows(t, s) && s.oldStart <= i < s.oldEnd && s.newStart < s.newEnd
  {
    MoveMiddle(s, i).(dom := InsertBefore(s.dom, t.elms[i], Some(t.elms[s.oldStart])))
  }

  function CreatedBefore(s: State, ref: Option<Elm>): State
    requires s.newStart < |s.from|
  {
    Create(s).(dom := InsertBefore(s.dom, s.next, ref))
  }

  lemma MovedRightKeeps(t: Update, s: State)
    requires Invariant(t, s) && s.oldStart < s.oldEnd - 1 && s.newStart < s.newEnd
    requires s.live[s.oldStart] && s.live[s.oldEnd - 1]
    requires SameVnode(t.olds[s.oldStart], t.news[s.newEnd - 1])
    ensures Invariant(t, MovedRight(t, s))
  {
    MoveRightDom(t, s);
    MoveRightKeeps(t, s, DomMovedRight(t, s));
  }

  lemma MovedLeftKeeps(t: Update, s: State)
    requires Invariant(t, s) && s.oldStart < s.oldEnd - 1 && s.newStart < s.newEnd
    requires s.live[s.oldStart] && s.live[s.oldEnd - 1]
    requires SameVnode(t.olds[s.oldEnd - 1], t.news[s.newStart])
    ensures Invariant(t, MovedLeft(t, s))
  {
    MoveLeftDom(t, s);
    MoveLeftKeeps(t, s, MovedLeft(t, s).dom);
  }

  lemma MovedMiddleKeeps(t: Update, s: State, i: nat)
    requires Invariant(t, s) && s.oldStart < i < s.oldEnd && s.newStart < s.newEnd
    requires s.live[s.oldStart] && s.live[i]
    requires SameVnode(t.olds[i], t.news[s.newStart])
    ensures Invariant(t, MovedMiddle(t, s, i))
  {
    MoveMiddleDom(t, s, i);
    MoveMiddleKeeps(t, s, i, MovedMiddle(t, s, i).dom);
  }

  lemma CreatedKeeps(t: Update, s: State, ref: Option<Elm>)
    requires Invariant(t, s) && s.newStart < s.newEnd && MayCreate(t, s) && ref == FirstOf(Rest(t, s))
    ensures Invariant(t, CreatedBefore(s, ref))
  {
    CreateDom(t, s);
    CreateKeeps(t, s, CreatedBefore(s, ref).dom);
  }

  // ---- the end ----

  lemma RemoveOne(p: seq<Elm>, x: Elm, l: seq<Elm>, q: seq<Elm>)
    requires NoDup(p + ([x] + l) + q)
    ensures Without(p + ([x] + l) + q, x) == p + l + q && NoDup(p + l + q)
  {
    assert p + ([x] + l) + q == p + [x] + (l + q);
    NoDupSplit(p, x, l + q);
    WithoutSplit(p, x, l + q);
    assert p + l + q == p + (l + q);
  }

  /** The outcome on values: every child comes from its own vnode, kept where possible. */
  ghost predicate Reconciled(t: Update, from: seq<Origin>, dom: seq<Elm>) {
    && |dom| == |from| == |t.news| && NoDup(dom)
    && (forall j :: 0 <= j < |from| ==>
          match from[j]
          case Unset => false
          case Created(e) => dom[j] == e && t.bound <= e
          case Reused(i) => i < |t.olds| == |t.elms| && dom[j] == t.elms[i] && SameVnode(t.olds[i], t.news[j]))
    && (DistinctKeys(t.olds) ==>
          forall i, j :: 0 <= i < |t.olds| && 0 <= j < |from| && t.news[j].key.Key? && SameVnode(t.olds[i], t.news[j])
                         ==> from[j] == Reused(i))
  }

  /** One node can be patched into the other: same key and kind of node, and an input keeps to its type or to text. */
  predicate Alike(a: Info, b: Info) {
    && a.key == b.key && a.tag == b.tag && a.isComment == b.isComment && a.hasData == b.hasData
    && (a.tag == "input" && a.inputType != b.inputType ==>
          && a.inputType in ["text", "number", "password", "search", "email", "tel", "url"]
          && b.inputType in ["text", "number", "password", "search", "email", "tel", "url"])
  }

  /** A placeholder whose component is being fetched, and the node of the same factory, unless that has failed. */
  predicate Fetched(a: Info, b: Info) {
    a.isAsyncPlaceholder && a.key == b.key && a.asyncFactory == b.asyncFactory && !b.asyncError
  }

  /** Elements go to nodes that are alike only; and with distinct old keys a keyed node gets the one of its like. */
  ghost predicate ReusedByLikes(t: Update, from: seq<Origin>) {
    && |from| == |t.news|
    && (forall j :: 0 <= j < |from| && from[j].Reused? ==>
          from[j].index < |t.olds|
          && (Alike(t.olds[from[j].index], t.news[j]) || Fetched(t.olds[from[j].index], t.news[j])))
    && (DistinctKeys(t.olds) ==>
          forall i, j :: 0 <= i < |t.olds| && 0 <= j < |from| && t.news[j].key.Key?
                         && (Alike(t.olds[i], t.news[j]) || Fetched(t.olds[i], t.news[j]))
                         ==> from[j] == Reused(i))
  }

  lemma ReconciledByLikes(t: Update, from: seq<Origin>, dom: seq<Elm>)
    requires Reconciled(t, from, dom)
    ensures ReusedByLikes(t, from)
  {
    forall a: Info, b: Info ensures SameVnode(a, b) <==> Alike(a, b) || Fetched(a, b) {}
  }

  /** When the new window is closed, the children are the elements of the new vnodes. */
  lemma EndElms(t: Update, s: State, dom: seq<Elm>)
    requires Invariant(t, s) && s.newStart == s.newEnd
    requires dom == Elms(t, s.from[..s.newStart]) + Elms(t, s.from[s.newEnd..])
    ensures |dom| == |s.from| && forall j :: 0 <= j < |s.from| ==> dom[j] == ElmOf(t, s.from[j]) && s.from[j] != Unset
  {
    ElmsAppend(t, s.from[..s.newStart], s.from[s.newEnd..]);
    assert s.from == s.from[..s.newStart] + s.from[s.newEnd..];
    if |s.from| == 0 {
      assert dom == [];
    }
    forall j | 0 <= j < |s.from|
      ensures |dom| == |s.from| && dom[j] == ElmOf(t, s.from[j]) && s.from[j] != Unset
    {
      ElmsAt(t, s.from, j);
      assert !Open(s, j);
    }
  }

  /** With distinct old keys, a keyed vnode that has a counterpart got its element. */
  lemma KeptWherePossible(t: Update, s: State, i: nat, j: nat)
    requires Invariant(t, s) && DistinctKeys(t.olds) && i < |t.olds| && j < |s.from| && s.from[j] != Unset
    requires t.news[j].key.Key? && SameVnode(t.olds[i], t.news[j])
    ensures s.from[j] == Reused(i)
  {
    assert !s.from[j].Created?;
    var i' := s.from[j].index;
    assert SameVnode(t.olds[i'], t.news[j]);
  }

  lemma AtTheEnd(t: Update, s: State, dom: seq<Elm>)
    requires Invariant(t, s) && s.newStart == s.newEnd && NoDup(dom)
    requires dom == Elms(t, s.from[..s.newStart]) + Elms(t, s.from[s.newEnd..])
    ensures Reconciled(t, s.from, dom)
  {
    EndElms(t, s, dom);
    forall i, j | DistinctKeys(t.olds) && 0 <= i < |t.olds| && 0 <= j < |s.from| && t.news[j].key.Key?
                  && SameVnode(t.olds[i], t.news[j])
      ensures s.from[j] == Reused(i)
    {
      KeptWherePossible(t, s, i, j);
    }
  }

  lemma ElmsFirst(t: Update, from: seq<Origin>, k: nat)
    requires Grounded(t, from) && k <= |from|
    ensures FirstOf(Elms(t, from[k..])) == if k == |from| then None else Some(ElmOf(t, from[k]))
  {}

  lemma EmptyOldWindow(t: Update, s: State)
    requires Windows(t, s) && DomShape(t, s) && s.oldStart == s.oldEnd
    ensures s.dom == Elms(t, s.from[..s.newStart]) + Elms(t, s.from[s.newEnd..])
  {
    var p := Elms(t, s.from[..s.newStart]);
    assert p + [] == p;
  }
}
