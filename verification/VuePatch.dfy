/** `updateChildren` and its helpers as code: vnodes and the parent are updated in place. */
module VuePatch {
  import opened Options
  import opened VueDom
  import opened VueDiff

  class VNode {
    const info: Info
    var elm: Option<Elm>

    constructor (info: Info, elm: Option<Elm>)
      ensures this.info == info && this.elm == elm
    {
      this.info, this.elm := info, elm;
    }
  }

  /** The parent element: its children, and how many elements have been created so far. */
  class Parent {
    var children: seq<Elm>
    var next: Elm

    method CreateElement() returns (e: Elm)
      modifies `next
      ensures e == old(next) && next == old(next) + 1
    {
      e, next := next, next + 1;
    }

    method MoveBefore(e: Elm, ref: Option<Elm>)
      modifies `children
      ensures children == InsertBefore(old(children), e, ref)
    {
      children := InsertBefore(children, e, ref);
    }

    /** `insert`: nothing happens if the reference node is no child of this parent. */
    method Insert(e: Elm, ref: Option<Elm>)
      modifies `children
      ensures children == if ref.Some? && ref.value !in old(children) then old(children)
                          else InsertBefore(old(children), e, ref)
    {
      if ref.Some? {
        if ref.value in children {
          MoveBefore(e, ref);
        }
      } else {
        MoveBefore(e, None);
      }
    }

    method Remove(e: Elm)
      modifies `children
      ensures children == Without(old(children), e)
    {
      children := Without(children, e);
    }
  }

  function ElmOption(t: Update, o: Origin): Option<Elm>
    requires o.Reused? ==> o.index < |t.elms|
  {
    if o.Unset? then None else Some(ElmOf(t, o))
  }

  /** The old array holds the vnodes still in place, and holes. */
  ghost predicate OldLinked(t: Update, live: seq<bool>, oldCh: array<VNode?>, newCh: seq<VNode>)
    reads oldCh, oldCh[..]
  {
    && |t.olds| == |t.elms| == |live| == oldCh.Length
    && forall i :: 0 <= i < oldCh.Length ==>
         if live[i] then
           oldCh[i] != null && oldCh[i].info == t.olds[i] && oldCh[i].elm == Some(t.elms[i]) && oldCh[i] !in newCh
         else oldCh[i] == null
  }

  /** The new vnodes hold the elements they have got so far. */
  ghost predicate NewLinked(t: Update, from: seq<Origin>, newCh: seq<VNode>)
    reads newCh
  {
    && |t.news| == |from| == |newCh| && Grounded(t, from) && NoDup(newCh)
    && forall j :: 0 <= j < |newCh| ==> newCh[j].info == t.news[j] && newCh[j].elm == ElmOption(t, from[j])
  }

  ghost predicate Linked(t: Update, s: State, parent: Parent, oldCh: array<VNode?>, newCh: seq<VNode>)
    reads parent, oldCh, oldCh[..], newCh
  {
    && OldLinked(t, s.live, oldCh, newCh) && NewLinked(t, s.from, newCh)
    && parent.children == s.dom && parent.next == s.next
  }

  /** What `patchVnode` does to the element of a new vnode. */
  method PatchVnode(oldVnode: VNode, vnode: VNode)
    requires oldVnode != vnode && vnode.elm.None?
    modifies vnode
    ensures vnode.elm == oldVnode.elm
  {
    vnode.elm := oldVnode.elm;
  }

  /** An old vnode in place gives its element to a new vnode. */
  method Reuse(ghost t: Update, ghost live: seq<bool>, ghost from: seq<Origin>,
               oldCh: array<VNode?>, newCh: seq<VNode>, i: nat, j: nat)
    requires OldLinked(t, live, oldCh, newCh) && NewLinked(t, from, newCh)
    requires i < oldCh.Length && live[i] && j < |newCh| && from[j] == Unset
    modifies newCh[j]
    ensures OldLinked(t, live, oldCh, newCh) && NewLinked(t, from[j := Reused(i)], newCh)
  {
    PatchVnode(oldCh[i], newCh[j]);
  }

  /** `createElm` for a child: a new element, inserted before the reference node. */
  method CreateElm(ghost t: Update, ghost from: seq<Origin>, parent: Parent, newCh: seq<VNode>, j: nat,
                   ref: Option<Elm>)
    requires NewLinked(t, from, newCh) && j < |newCh| && from[j] == Unset
    requires ref.Some? ==> ref.value in parent.children
    modifies parent, newCh[j]
    ensures NewLinked(t, from[j := Created(old(parent.next))], newCh)
    ensures parent.next == old(parent.next) + 1
    ensures parent.children == InsertBefore(old(parent.children), old(parent.next), ref)
  {
    var e := parent.CreateElement();
    newCh[j].elm := Some(e);
    parent.Insert(e, ref);
  }

  /** An index of the keyed vnodes of the old window. */
  ghost predicate Indexes(t: Update, s: State, index: map<string, nat>)
    requires Windows(t, s)
  {
    && (forall name <- index :: index[name] < |t.olds| && t.olds[index[name]].key.Key?
                                && t.olds[index[name]].key.name == name)
    && (DistinctKeys(t.olds) ==>
          forall i :: 0 <= i < |t.olds| && InPlace(s, i) && t.olds[i].key.Key?
                      ==> t.olds[i].key.name in index && index[t.olds[i].key.name] == i)
  }

  method CreateKeyToOldIdx(ghost t: Update, ghost s: State, oldCh: array<VNode?>, ghost newCh: seq<VNode>,
                           beginIdx: nat, endIdx: int)
    returns (index: map<string, nat>)
    requires Windows(t, s) && OldLinked(t, s.live, oldCh, newCh)
    requires beginIdx == s.oldStart && endIdx == s.oldEnd - 1
    requires forall i :: s.oldStart <= i < s.oldEnd ==> s.live[i]
    ensures Indexes(t, s, index)
  {
    index := map[];
    var i := beginIdx;
    while i <= endIdx
      invariant beginIdx <= i <= endIdx + 1
      invariant forall name <- index :: beginIdx <= index[name] < i && t.olds[index[name]].key.Key?
                                        && t.olds[index[name]].key.name == name
      invariant forall k :: beginIdx <= k < i && t.olds[k].key.Key? ==> t.olds[k].key.name in index
    {
      var key := oldCh[i].info.key;
      if key.Key? {
        index := index[key.name := i];
      }
      i := i + 1;
    }
  }

  method FindIdxInOld(node: VNode, oldCh: array<VNode?>, start: nat, end: int) returns (idx: Option<nat>)
    requires end <= oldCh.Length
    ensures idx.Some? ==> start <= idx.value < end && oldCh[idx.value] != null
                          && SameVnode(node.info, oldCh[idx.value].info)
    ensures idx.None? ==> forall i :: start <= i < end && oldCh[i] != null ==> !SameVnode(node.info, oldCh[i].info)
  {
    var i := start;
    while i < end
      invariant forall k :: start <= k < i && k < end && oldCh[k] != null ==> !SameVnode(node.info, oldCh[k].info)
    {
      var c := oldCh[i];
      if c != null && SameVnode(node.info, c.info) {
        return Some(i);
      }
      i := i + 1;
    }
    return None;
  }

  /** An index entry for an open new vnode leads to an old vnode that is still in place. */
  lemma IndexedIsInPlace(t: Update, s: State, index: map<string, nat>)
    requires Invariant(t, s) && Indexes(t, s, index) && s.newStart < s.newEnd
    requires t.news[s.newStart].key.Key? && t.news[s.newStart].key.name in index
    ensures InPlace(s, index[t.news[s.newStart].key.name])
  {
    var i := index[t.news[s.newStart].key.name];
    if !InPlace(s, i) {
      UsedForAnother(t, s, i, s.newStart);
    }
  }

  /** The index finds the counterpart of a keyed new vnode, if one is in place. */
  lemma IndexDecides(t: Update, s: State, index: map<string, nat>)
    requires Invariant(t, s) && Indexes(t, s, index) && s.newStart < s.newEnd
    requires var v := t.news[s.newStart];
             v.key.Key? && v.key.name in index ==> !SameVnode(t.olds[index[v.key.name]], v)
    ensures MayCreate(t, s)
  {}

  /** The lookup of the last branch: by key in the index, or along the window for a vnode without a key. */
  method Lookup(ghost t: Update, ghost s: State, oldCh: array<VNode?>, newCh: seq<VNode>, newStartVnode: VNode,
                oldStartIdx: nat, oldEndIdx: int, index: map<string, nat>)
    returns (idxInOld: Option<nat>)
    requires Invariant(t, s) && Indexes(t, s, index) && OldLinked(t, s.live, oldCh, newCh)
    requires oldStartIdx == s.oldStart && oldEndIdx == s.oldEnd - 1 && s.oldStart < s.oldEnd && s.newStart < s.newEnd
    requires newStartVnode.info == t.news[s.newStart]
    ensures idxInOld.Some? ==> idxInOld.value < |t.olds| && InPlace(s, idxInOld.value)
    ensures !(idxInOld.Some? && SameVnode(t.olds[idxInOld.value], t.news[s.newStart])) ==> MayCreate(t, s)
  {
    var key := newStartVnode.info.key;
    if key.Key? {
      if key.name in index {
        IndexedIsInPlace(t, s, index);
        idxInOld := Some(index[key.name]);
      } else {
        idxInOld := None;
      }
    } else {
      idxInOld := FindIdxInOld(newStartVnode, oldCh, oldStartIdx, oldEndIdx);
    }
    if !(idxInOld.Some? && SameVnode(t.olds[idxInOld.value], t.news[s.newStart])) {
      IndexDecides(t, s, index);
    }
  }

  /** The counterpart moves before the old window and leaves a hole. */
  method MoveCounterpart(ghost t: Update, ghost s: State, parent: Parent, oldCh: array<VNode?>, newCh: seq<VNode>,
                         i: nat, oldStartIdx: nat, newStartIdx: nat)
    requires Windows(t, s) && Linked(t, s, parent, oldCh, newCh)
    requires oldStartIdx == s.oldStart && newStartIdx == s.newStart
    requires s.oldStart < i < s.oldEnd && s.newStart < s.newEnd && s.live[s.oldStart] && s.live[i]
    requires s.from[s.newStart] == Unset
    modifies parent`children, oldCh, newCh[newStartIdx]
    ensures Linked(t, MovedMiddle(t, s, i), parent, oldCh, newCh)
  {
    var vnodeToMove, oldStartVnode := oldCh[i], oldCh[oldStartIdx];
    Reuse(t, s.live, s.from, oldCh, newCh, i, newStartIdx);
    oldCh[i] := null;
    parent.MoveBefore(vnodeToMove.elm.value, oldStartVnode.elm);
  }

  /** The last branch leaves the old window alone and moves on in the new one. */
  ghost predicate NextNew(t: Update, s: State, s': State, index: map<string, nat>)
    requires s.oldStart < s.oldEnd
  {
    && Invariant(t, s') && Indexes(t, s', index)
    && s'.oldStart == s.oldStart && s'.oldEnd == s.oldEnd
    && s'.newStart == s.newStart + 1 && s'.newEnd == s.newEnd
    && s'.live[s.oldStart] && s'.live[s.oldEnd - 1]
  }

  lemma MiddleIsNextNew(t: Update, s: State, i: nat, index: map<string, nat>)
    requires Invariant(t, s) && Indexes(t, s, index) && s.oldStart < i < s.oldEnd - 1 && s.newStart < s.newEnd
    requires s.live[s.oldStart] && s.live[s.oldEnd - 1] && s.live[i]
    requires SameVnode(t.olds[i], t.news[s.newStart])
    ensures NextNew(t, s, MovedMiddle(t, s, i), index)
  {
    MovedMiddleKeeps(t, s, i);
    var s' := MovedMiddle(t, s, i);
    assert forall k :: 0 <= k < |t.olds| && InPlace(s', k) ==> InPlace(s, k);
  }

  lemma CreateIsNextNew(t: Update, s: State, ref: Option<Elm>, index: map<string, nat>)
    requires Invariant(t, s) && Indexes(t, s, index) && s.oldStart < s.oldEnd && s.newStart < s.newEnd
    requires s.live[s.oldStart] && s.live[s.oldEnd - 1] && MayCreate(t, s) && ref == FirstOf(Rest(t, s))
    ensures NextNew(t, s, CreatedBefore(s, ref), index)
  {
    CreatedKeeps(t, s, ref);
    var s' := CreatedBefore(s, ref);
    assert forall k :: 0 <= k < |t.olds| && InPlace(s', k) ==> InPlace(s, k);
  }

  /** The last branch of the loop: look the new vnode up, then move its counterpart or create an element. */
  method PlaceByKey(ghost t: Update, ghost s: State, parent: Parent, oldCh: array<VNode?>, newCh: seq<VNode>,
                    oldStartIdx: nat, oldEndIdx: int, newStartIdx: nat, index: map<string, nat>)
    returns (ghost s': State)
    requires Invariant(t, s) && Linked(t, s, parent, oldCh, newCh) && Indexes(t, s, index)
    requires oldStartIdx == s.oldStart && oldEndIdx == s.oldEnd - 1 && newStartIdx == s.newStart
    requires s.oldStart < s.oldEnd && s.newStart < s.newEnd && s.live[s.oldStart] && s.live[s.oldEnd - 1]
    requires !SameVnode(t.olds[s.oldStart], t.news[s.newStart]) && !SameVnode(t.olds[s.oldEnd - 1], t.news[s.newStart])
    modifies parent, oldCh, newCh[newStartIdx]
    ensures NextNew(t, s, s', index) && Linked(t, s', parent, oldCh, newCh)
  {
    var idxInOld := Lookup(t, s, oldCh, newCh, newCh[newStartIdx], oldStartIdx, oldEndIdx, index);
    if idxInOld.Some? && SameVnode(oldCh[idxInOld.value].info, newCh[newStartIdx].info) {
      s' := MovedMiddle(t, s, idxInOld.value);
      MiddleIsNextNew(t, s, idxInOld.value, index);
      MoveCounterpart(t, s, parent, oldCh, newCh, idxInOld.value, oldStartIdx, newStartIdx);
    } else {
      s' := CreateBeforeRest(t, s, parent, oldCh, newCh, oldStartIdx, newStartIdx, index);
    }
  }

  /** No counterpart: a new element goes before the old window. */
  method CreateBeforeRest(ghost t: Update, ghost s: State, parent: Parent, oldCh: array<VNode?>, newCh: seq<VNode>,
                          oldStartIdx: nat, newStartIdx: nat, ghost index: map<string, nat>)
    returns (ghost s': State)
    requires Invariant(t, s) && Linked(t, s, parent, oldCh, newCh) && Indexes(t, s, index)
    requires oldStartIdx == s.oldStart && newStartIdx == s.newStart
    requires s.oldStart < s.oldEnd && s.newStart < s.newEnd && s.live[s.oldStart] && s.live[s.oldEnd - 1]
    requires MayCreate(t, s)
    modifies parent, newCh[newStartIdx]
    ensures NextNew(t, s, s', index) && Linked(t, s', parent, oldCh, newCh)
  {
    var ref := oldCh[oldStartIdx].elm;
    assert ref == FirstOf(Rest(t, s));
    s' := CreatedBefore(s, ref);
    CreateIsNextNew(t, s, ref, index);
    CreateElm(t, s.from, parent, newCh, newStartIdx, ref);
  }

  /** The index is complete for the current window, or has not been built while nothing is missing. */
  ghost predicate IndexState(t: Update, s: State, index: Option<map<string, nat>>)
    requires Windows(t, s)
  {
    match index
    case Some(m) => Indexes(t, s, m)
    case None => forall i :: s.oldStart <= i < s.oldEnd ==> s.live[i]
  }

  /** What the state of the loop and the index keep from turn to turn. */
  ghost predicate Turning(t: Update, s: State, index: Option<map<string, nat>>) {
    Invariant(t, s) && IndexState(t, s, index)
  }

  lemma IndexStateShrinks(t: Update, s: State, s': State, index: Option<map<string, nat>>)
    requires Windows(t, s) && Windows(t, s') && IndexState(t, s, index)
    requires s'.live == s.live && s.oldStart <= s'.oldStart && s'.oldEnd <= s.oldEnd
    ensures IndexState(t, s', index)
  {
    assert forall k :: 0 <= k < |t.olds| && InPlace(s', k) ==> InPlace(s, k);
  }

  lemma SkipFrontTurn(t: Update, s: State, index: Option<map<string, nat>>)
    requires Turning(t, s, index) && s.oldStart < s.oldEnd && !s.live[s.oldStart]
    ensures Turning(t, SkipFront(s), index)
  {
    SkipFrontKeeps(t, s);
    IndexStateShrinks(t, s, SkipFront(s), index);
  }

  lemma SkipBackTurn(t: Update, s: State, index: Option<map<string, nat>>)
    requires Turning(t, s, index) && s.oldStart < s.oldEnd && !s.live[s.oldEnd - 1]
    ensures Turning(t, SkipBack(s), index)
  {
    SkipBackKeeps(t, s);
    IndexStateShrinks(t, s, SkipBack(s), index);
  }

  lemma StartStartTurn(t: Update, s: State, index: Option<map<string, nat>>)
    requires Turning(t, s, index) && s.oldStart < s.oldEnd && s.newStart < s.newEnd && s.live[s.oldStart]
    requires SameVnode(t.olds[s.oldStart], t.news[s.newStart])
    ensures Turning(t, StartStart(s), index)
  {
    StartStartKeeps(t, s);
    IndexStateShrinks(t, s, StartStart(s), index);
  }

  lemma EndEndTurn(t: Update, s: State, index: Option<map<string, nat>>)
    requires Turning(t, s, index) && s.oldStart < s.oldEnd && s.newStart < s.newEnd && s.live[s.oldEnd - 1]
    requires SameVnode(t.olds[s.oldEnd - 1], t.news[s.newEnd - 1])
    ensures Turning(t, EndEnd(s), index)
  {
    EndEndKeeps(t, s);
    IndexStateShrinks(t, s, EndEnd(s), index);
  }

  lemma MovedRightTurn(t: Update, s: State, index: Option<map<string, nat>>)
    requires Turning(t, s, index) && s.oldStart < s.oldEnd - 1 && s.newStart < s.newEnd
    requires s.live[s.oldStart] && s.live[s.oldEnd - 1] && SameVnode(t.olds[s.oldStart], t.news[s.newEnd - 1])
    ensures Turning(t, MovedRight(t, s), index)
  {
    MovedRightKeeps(t, s);
    IndexStateShrinks(t, s, MovedRight(t, s), index);
  }

  lemma MovedLeftTurn(t: Update, s: State, index: Option<map<string, nat>>)
    requires Turning(t, s, index) && s.oldStart < s.oldEnd - 1 && s.newStart < s.newEnd
    requires s.live[s.oldStart] && s.live[s.oldEnd - 1] && SameVnode(t.olds[s.oldEnd - 1], t.news[s.newStart])
    ensures Turning(t, MovedLeft(t, s), index)
  {
    MovedLeftKeeps(t, s);
    IndexStateShrinks(t, s, MovedLeft(t, s), index);
  }

  /** The old vnode at the front went to the back: its element moves behind the old window. */
  method MoveRightBranch(ghost t: Update, ghost s: State, parent: Parent, oldCh: array<VNode?>, newCh: seq<VNode>,
                         oldStartIdx: nat, oldEndIdx: nat, newEndIdx: nat)
    requires Windows(t, s) && Linked(t, s, parent, oldCh, newCh)
    requires oldStartIdx == s.oldStart < s.oldEnd && oldEndIdx == s.oldEnd - 1
    requires s.newStart <= newEndIdx == s.newEnd - 1
    requires s.live[s.oldStart] && s.live[s.oldEnd - 1] && s.from[newEndIdx] == Unset
    modifies parent`children, newCh[newEndIdx]
    ensures Linked(t, MovedRight(t, s), parent, oldCh, newCh)
  {
    var elm, last := oldCh[oldStartIdx].elm.value, oldCh[oldEndIdx].elm.value;
    Reuse(t, s.live, s.from, oldCh, newCh, oldStartIdx, newEndIdx);
    parent.MoveBefore(elm, NextSibling(parent.children, last));
  }

  /** The old vnode at the back went to the front: its element moves before the old window. */
  method MoveLeftBranch(ghost t: Update, ghost s: State, parent: Parent, oldCh: array<VNode?>, newCh: seq<VNode>,
                        oldStartIdx: nat, oldEndIdx: nat, newStartIdx: nat)
    requires Windows(t, s) && Linked(t, s, parent, oldCh, newCh)
    requires oldStartIdx == s.oldStart < s.oldEnd && oldEndIdx == s.oldEnd - 1 && newStartIdx == s.newStart < s.newEnd
    requires s.live[s.oldStart] && s.live[s.oldEnd - 1] && s.from[newStartIdx] == Unset
    modifies parent`children, newCh[newStartIdx]
    ensures Linked(t, MovedLeft(t, s), parent, oldCh, newCh)
  {
    var elm, ref := oldCh[oldEndIdx].elm.value, oldCh[oldStartIdx].elm;
    Reuse(t, s.live, s.from, oldCh, newCh, oldEndIdx, newStartIdx);
    parent.MoveBefore(elm, ref);
  }

  /** Both windows are open, and their ends are these vnodes. */
  ghost predicate AtEnds(t: Update, s: State, oldStartIdx: int, oldEndIdx: int, newStartIdx: int, newEndIdx: int) {
    && oldStartIdx == s.oldStart && oldEndIdx == s.oldEnd - 1
    && newStartIdx == s.newStart && newEndIdx == s.newEnd - 1
  }

  /** The state after one of the branches that compare the ends of the windows, if one applies. */
  function NextByEnds(t: Update, s: State): Option<State>
    requires Windows(t, s) && s.oldStart < s.oldEnd && s.newStart < s.newEnd
  {
    if SameVnode(t.olds[s.oldStart], t.news[s.newStart]) then Some(StartStart(s))
    else if SameVnode(t.olds[s.oldEnd - 1], t.news[s.newEnd - 1]) then Some(EndEnd(s))
    else if SameVnode(t.olds[s.oldStart], t.news[s.newEnd - 1]) then Some(MovedRight(t, s))
    else if SameVnode(t.olds[s.oldEnd - 1], t.news[s.newStart]) then Some(MovedLeft(t, s))
    else None
  }

  lemma NextByEndsTurn(t: Update, s: State, index: Option<map<string, nat>>, s': State)
    requires Turning(t, s, index) && s.oldStart < s.oldEnd && s.newStart < s.newEnd
    requires s.live[s.oldStart] && s.live[s.oldEnd - 1] && NextByEnds(t, s) == Some(s')
    ensures Turning(t, s', index)
  {
    if Facing(t, s) {
      FacingEnds(t, s, s');
      if SameVnode(t.olds[s.oldStart], t.news[s.newStart]) {
        StartStartTurn(t, s, index);
      } else {
        EndEndTurn(t, s, index);
      }
    } else {
      NextByCrossedEnds(t, s, index, s');
    }
  }

  predicate Facing(t: Update, s: State)
    requires Windows(t, s) && s.oldStart < s.oldEnd && s.newStart < s.newEnd
  {
    SameVnode(t.olds[s.oldStart], t.news[s.newStart]) || SameVnode(t.olds[s.oldEnd - 1], t.news[s.newEnd - 1])
  }

  lemma FacingEnds(t: Update, s: State, s': State)
    requires Windows(t, s) && s.oldStart < s.oldEnd && s.newStart < s.newEnd
    requires NextByEnds(t, s) == Some(s') && Facing(t, s)
    ensures if SameVnode(t.olds[s.oldStart], t.news[s.newStart]) then s' == StartStart(s)
            else SameVnode(t.olds[s.oldEnd - 1], t.news[s.newEnd - 1]) && s' == EndEnd(s)
  {
  }

  /** The old ends are different vnodes when one matches the new end across, and none the one it faces. */
  lemma CrossedEnds(t: Update, s: State, s': State)
    requires Windows(t, s) && s.oldStart < s.oldEnd && s.newStart < s.newEnd
    requires NextByEnds(t, s) == Some(s') && !Facing(t, s)
    ensures s.oldStart < s.oldEnd - 1
    ensures if SameVnode(t.olds[s.oldStart], t.news[s.newEnd - 1]) then s' == MovedRight(t, s)
            else SameVnode(t.olds[s.oldEnd - 1], t.news[s.newStart]) && s' == MovedLeft(t, s)
  {
  }

  lemma NextByCrossedEnds(t: Update, s: State, index: Option<map<string, nat>>, s': State)
    requires Turning(t, s, index) && s.oldStart < s.oldEnd && s.newStart < s.newEnd
    requires s.live[s.oldStart] && s.live[s.oldEnd - 1] && NextByEnds(t, s) == Some(s') && !Facing(t, s)
    ensures Turning(t, s', index)
  {
    CrossedEnds(t, s, s');
    if SameVnode(t.olds[s.oldStart], t.news[s.newEnd - 1]) {
      MovedRightTurn(t, s, index);
    } else {
      MovedLeftTurn(t, s, index);
    }
  }

  /** The four branches that compare the ends of the windows. */
  method MatchEnds(ghost t: Update, ghost s: State, parent: Parent, oldCh: array<VNode?>, newCh: seq<VNode>,
                   oldStartIdx: nat, oldEndIdx: nat, newStartIdx: nat, newEndIdx: nat)
    returns (matched: bool, os: nat, oe: int, ns: nat, ne: int)
    requires Windows(t, s) && Linked(t, s, parent, oldCh, newCh)
    requires AtEnds(t, s, oldStartIdx, oldEndIdx, newStartIdx, newEndIdx)
    requires s.oldStart < s.oldEnd && s.newStart < s.newEnd && s.live[s.oldStart] && s.live[s.oldEnd - 1]
    requires s.from[s.newStart] == Unset && s.from[s.newEnd - 1] == Unset
    modifies parent`children, newCh
    ensures matched <==> NextByEnds(t, s).Some?
    ensures matched ==> oe - os + ne - ns < oldEndIdx - oldStartIdx + newEndIdx - newStartIdx
    ensures var s' := if matched then NextByEnds(t, s).value else s;
            Linked(t, s', parent, oldCh, newCh) && AtEnds(t, s', os, oe, ns, ne)
  {
    var oldStartVnode, oldEndVnode := oldCh[oldStartIdx], oldCh[oldEndIdx];
    var newStartVnode, newEndVnode := newCh[newStartIdx], newCh[newEndIdx];
    matched := true;
    os, oe, ns, ne := oldStartIdx, oldEndIdx, newStartIdx, newEndIdx;
    if SameVnode(oldStartVnode.info, newStartVnode.info) {
      Reuse(t, s.live, s.from, oldCh, newCh, os, ns);
      os, ns := os + 1, ns + 1;
    } else if SameVnode(oldEndVnode.info, newEndVnode.info) {
      Reuse(t, s.live, s.from, oldCh, newCh, oe, ne);
      oe, ne := oe - 1, ne - 1;
    } else if SameVnode(oldStartVnode.info, newEndVnode.info) {
      MoveRightBranch(t, s, parent, oldCh, newCh, os, oe, ne);
      os, ne := os + 1, ne - 1;
    } else if SameVnode(oldEndVnode.info, newStartVnode.info) {
      MoveLeftBranch(t, s, parent, oldCh, newCh, os, oe, ns);
      oe, ns := oe - 1, ns + 1;
    } else {
      matched := false;
    }
  }

  /** A turn of the loop with both ends of the old window in place. */
  method PlaceEnds(ghost t: Update, ghost s: State, parent: Parent, oldCh: array<VNode?>, newCh: seq<VNode>,
                   oldStartIdx: nat, oldEndIdx: nat, newStartIdx: nat, newEndIdx: nat,
                   oldKeyToIdx: Option<map<string, nat>>)
    returns (os: nat, oe: int, ns: nat, ne: int, index: Option<map<string, nat>>, ghost s': State)
    requires Turning(t, s, oldKeyToIdx) && Linked(t, s, parent, oldCh, newCh)
    requires AtEnds(t, s, oldStartIdx, oldEndIdx, newStartIdx, newEndIdx)
    requires s.oldStart < s.oldEnd && s.newStart < s.newEnd && s.live[s.oldStart] && s.live[s.oldEnd - 1]
    modifies parent, oldCh, newCh
    ensures Turning(t, s', index) && Linked(t, s', parent, oldCh, newCh) && AtEnds(t, s', os, oe, ns, ne)
    ensures oe - os + ne - ns < oldEndIdx - oldStartIdx + newEndIdx - newStartIdx
  {
    index := oldKeyToIdx;
    var matched;
    matched, os, oe, ns, ne := MatchEnds(t, s, parent, oldCh, newCh, oldStartIdx, oldEndIdx, newStartIdx, newEndIdx);
    if matched {
      s' := NextByEnds(t, s).value;
      NextByEndsTurn(t, s, index, s');
    } else {
      if index.None? {
        var m := CreateKeyToOldIdx(t, s, oldCh, newCh, oldStartIdx, oldEndIdx);
        index := Some(m);
      }
      s' := PlaceByKey(t, s, parent, oldCh, newCh, oldStartIdx, oldEndIdx, newStartIdx, index.value);
      ns := newStartIdx + 1;
    }
  }

  /** The while loop: both windows shrink until one of them is empty. */
  method DiffWindows(ghost t: Update, parent: Parent, oldCh: array<VNode?>, newCh: seq<VNode>)
    returns (oldStartIdx: nat, oldEndIdx: int, newStartIdx: nat, newEndIdx: int, ghost s: State)
    requires ValidUpdate(t) && Linked(t, Start(t), parent, oldCh, newCh)
    modifies parent, oldCh, newCh
    ensures Invariant(t, s) && Linked(t, s, parent, oldCh, newCh)
    ensures AtEnds(t, s, oldStartIdx, oldEndIdx, newStartIdx, newEndIdx)
    ensures oldStartIdx > oldEndIdx || newStartIdx > newEndIdx
  {
    oldStartIdx, newStartIdx := 0, 0;
    oldEndIdx, newEndIdx := oldCh.Length - 1, |newCh| - 1;
    var oldKeyToIdx: Option<map<string, nat>> := None;
    s := Start(t);
    StartInvariant(t);
    while oldStartIdx <= oldEndIdx && newStartIdx <= newEndIdx
      invariant Turning(t, s, oldKeyToIdx) && Linked(t, s, parent, oldCh, newCh)
      invariant AtEnds(t, s, oldStartIdx, oldEndIdx, newStartIdx, newEndIdx)
      decreases oldEndIdx - oldStartIdx + newEndIdx - newStartIdx
    {
      if oldCh[oldStartIdx] == null {
        SkipFrontTurn(t, s, oldKeyToIdx);
        s := SkipFront(s);
        oldStartIdx := oldStartIdx + 1;
      } else if oldCh[oldEndIdx] == null {
        SkipBackTurn(t, s, oldKeyToIdx);
        s := SkipBack(s);
        oldEndIdx := oldEndIdx - 1;
      } else {
        oldStartIdx, oldEndIdx, newStartIdx, newEndIdx, oldKeyToIdx, s :=
          PlaceEnds(t, s, parent, oldCh, newCh, oldStartIdx, oldEndIdx, newStartIdx, newEndIdx, oldKeyToIdx);
      }
    }
  }

  /** `addVnodes`: elements for the new vnodes that are left, in order, before the reference node. */
  method AddVnodes(ghost t: Update, ghost s0: State, parent: Parent, oldCh: array<VNode?>, refElm: Option<Elm>,
                   vnodes: seq<VNode>, startIdx: nat, endIdx: int)
    returns (ghost s: State)
    requires Invariant(t, s0) && Linked(t, s0, parent, oldCh, vnodes)
    requires s0.oldStart == s0.oldEnd && startIdx == s0.newStart && endIdx == s0.newEnd - 1
    requires refElm == FirstOf(Elms(t, s0.from[s0.newEnd..]))
    modifies parent, vnodes
    ensures Invariant(t, s) && Linked(t, s, parent, oldCh, vnodes)
    ensures s.oldStart == s.oldEnd && s.newStart == s.newEnd
  {
    s := s0;
    var k := startIdx;
    while k <= endIdx
      invariant Invariant(t, s) && Linked(t, s, parent, oldCh, vnodes)
      invariant k == s.newStart && endIdx == s.newEnd - 1 && s.oldStart == s.oldEnd
      invariant refElm == FirstOf(Elms(t, s.from[s.newEnd..]))
    {
      CreateTurn(t, s, refElm);
      CreateElm(t, s.from, parent, vnodes, k, refElm);
      s := CreatedBefore(s, refElm);
      k := k + 1;
    }
  }

  lemma CreateTurn(t: Update, s: State, ref: Option<Elm>)
    requires Invariant(t, s) && s.oldStart == s.oldEnd && s.newStart < s.newEnd
    requires ref == FirstOf(Elms(t, s.from[s.newEnd..]))
    ensures ref.Some? ==> ref.value in s.dom
    ensures Invariant(t, CreatedBefore(s, ref))
    ensures ref == FirstOf(Elms(t, CreatedBefore(s, ref).from[s.newEnd..]))
  {
    assert Rest(t, s) == [] + Elms(t, s.from[s.newEnd..]) == Elms(t, s.from[s.newEnd..]);
    CreatedKeeps(t, s, ref);
    assert CreatedBefore(s, ref).from[s.newEnd..] == s.from[s.newEnd..];
  }

  /** `removeVnodes`: the old vnodes still in place are taken out. */
  method RemoveVnodes(ghost t: Update, ghost s: State, parent: Parent, vnodes: array<VNode?>, ghost newCh: seq<VNode>,
                      startIdx: nat, endIdx: int)
    requires Windows(t, s) && OldLinked(t, s.live, vnodes, newCh) && Grounded(t, s.from)
    requires startIdx == s.oldStart && endIdx == s.oldEnd - 1
    requires parent.children == Shape(t, s) && NoDup(parent.children)
    modifies parent`children
    ensures parent.children == Elms(t, s.from[..s.newStart]) + Elms(t, s.from[s.newEnd..]) && NoDup(parent.children)
  {
    ghost var p, q := Elms(t, s.from[..s.newStart]), Elms(t, s.from[s.newEnd..]);
    var k := startIdx;
    while k <= endIdx
      invariant startIdx <= k <= endIdx + 1
      invariant parent.children == p + Live(t.elms, s.live, k, s.oldEnd) + q && NoDup(parent.children)
    {
      var ch := vnodes[k];
      if ch != null {
        RemoveOne(p, t.elms[k], Live(t.elms, s.live, k + 1, s.oldEnd), q);
        parent.Remove(ch.elm.value);
      }
      k := k + 1;
    }
    assert Live(t.elms, s.live, s.oldEnd, s.oldEnd) == [];
    assert p + [] + q == p + q;
  }

  predicate NoHoles(vs: seq<VNode?>) {
    forall k :: 0 <= k < |vs| ==> vs[k] != null
  }

  function InfosOf(vs: seq<VNode?>): (r: seq<Info>)
    requires NoHoles(vs)
    ensures |r| == |vs| && forall k :: 0 <= k < |vs| ==> vs[k] != null && r[k] == vs[k].info
  {
    seq(|vs|, k requires 0 <= k < |vs| && vs[k] != null => vs[k].info)
  }

  /** The premises: the parent shows the old vnodes in order, and the new ones have no elements yet. */
  ghost predicate Shows(parent: Parent, oldCh: array<VNode?>, newCh: seq<VNode>)
    reads parent, oldCh, oldCh[..], newCh
  {
    && |parent.children| == oldCh.Length && NoDup(parent.children) && AllBelow(parent.children, parent.next)
    && (forall i :: 0 <= i < oldCh.Length ==>
          oldCh[i] != null && oldCh[i] !in newCh && oldCh[i].elm == Some(parent.children[i]))
    && NoDup(newCh) && forall j :: 0 <= j < |newCh| ==> newCh[j].elm == None
  }

  function UpdateOf(parent: Parent, oldCh: array<VNode?>, newCh: seq<VNode>): Update
    requires NoHoles(oldCh[..])
    reads parent, oldCh
  {
    Update(InfosOf(oldCh[..]), parent.children, InfosOf(newCh), parent.next)
  }

  lemma StartLinked(parent: Parent, oldCh: array<VNode?>, newCh: seq<VNode>)
    requires Shows(parent, oldCh, newCh) && DistinctKeys(InfosOf(newCh))
    ensures NoHoles(oldCh[..])
    ensures var t := UpdateOf(parent, oldCh, newCh); ValidUpdate(t) && Linked(t, Start(t), parent, oldCh, newCh)
  {}

  /** After the loop: add what is missing, or take out what is left over. */
  method AddOrRemove(ghost t: Update, ghost s0: State, parent: Parent, oldCh: array<VNode?>, newCh: seq<VNode>,
                     oldStartIdx: nat, oldEndIdx: int, newStartIdx: nat, newEndIdx: int)
    returns (ghost s: State)
    requires Invariant(t, s0) && Linked(t, s0, parent, oldCh, newCh)
    requires AtEnds(t, s0, oldStartIdx, oldEndIdx, newStartIdx, newEndIdx)
    requires oldStartIdx > oldEndIdx || newStartIdx > newEndIdx
    modifies parent, newCh
    ensures Invariant(t, s) && s.newStart == s.newEnd && NewLinked(t, s.from, newCh) && NoDup(parent.children)
    ensures parent.children == Elms(t, s.from[..s.newStart]) + Elms(t, s.from[s.newEnd..])
  {
    s := s0;
    if oldStartIdx > oldEndIdx {
      var refElm := if newEndIdx + 1 == |newCh| then None else newCh[newEndIdx + 1].elm;
      ElmsFirst(t, s.from, s.newEnd);
      s := AddVnodes(t, s, parent, oldCh, refElm, newCh, newStartIdx, newEndIdx);
      EmptyOldWindow(t, s);
    } else if newStartIdx > newEndIdx {
      RemoveVnodes(t, s, parent, oldCh, newCh, oldStartIdx, oldEndIdx);
    }
  }

  /** Patches the children of a node: afterwards it shows exactly the new vnodes, in order. */
  method UpdateChildren(parent: Parent, oldCh: array<VNode?>, newCh: seq<VNode>)
    returns (ghost t: Update, ghost from: seq<Origin>)
    requires Shows(parent, oldCh, newCh) && DistinctKeys(InfosOf(newCh))
    modifies parent, oldCh, newCh
    ensures old(NoHoles(oldCh[..])) && t == old(UpdateOf(parent, oldCh, newCh))
    ensures Reconciled(t, from, parent.children) && ReusedByLikes(t, from)
    ensures |parent.children| == |newCh|
    ensures forall j :: 0 <= j < |newCh| ==> newCh[j].elm == Some(parent.children[j])
  {
    StartLinked(parent, oldCh, newCh);
    t := UpdateOf(parent, oldCh, newCh);
    var oldStartIdx, oldEndIdx, newStartIdx, newEndIdx;
    ghost var s;
    oldStartIdx, oldEndIdx, newStartIdx, newEndIdx, s := DiffWindows(t, parent, oldCh, newCh);
    s := AddOrRemove(t, s, parent, oldCh, newCh, oldStartIdx, oldEndIdx, newStartIdx, newEndIdx);
    from := s.from;
    AtTheEnd(t, s, parent.children);
    ReconciledByLikes(t, from, parent.children);
  }
}
