/** Which separators an edit of a leaf writes (lib/bpt.c set_leaf, insert_into_parent). */
module BptSep {
  import opened BptTree
  import opened BptGrow
  import opened BptLeaf
  import opened BptStore
  import opened BptInsert
  import opened BptSet
  import opened BptPut

  /** The separators of the branch above the leaf. */
  function Above(s: Txn): (r: seq<nat>)
    requires s.path != [] && BranchAt(s.pages, s.path[0].no, s.path[0].pindex)
  {
    s.pages[s.path[0].no].keys
  }

  /** A changed first entry, and nothing else, rewrites the separator before its leaf, and no other. */
  ghost predicate Rewrote(s: Txn, t: Txn, first: bool, key: nat) {
    && t.path != [] && s.path != [] && t.path[0].pindex == s.path[0].pindex
    && BranchAt(s.pages, s.path[0].no, s.path[0].pindex) && BranchAt(t.pages, t.path[0].no, t.path[0].pindex)
    && |Above(t)| == |Above(s)|
    && (forall i | 0 <= i < |Above(s)| && !(first && i + 1 == s.path[0].pindex) :: Above(t)[i] == Above(s)[i])
    && (first && s.path[0].pindex > 0 ==> Above(t)[s.path[0].pindex - 1] == key)
  }

  lemma {:induction false} AttachKeys(s: Txn, n: nat)
    requires StoreOk(s) && Safe(s, 0) && s.path != [] && CanOwn(s, s.path[0].no)
    ensures var t := Attach(s, 0, n, s.path[0].pindex);
            && Climbed(s, t, 0) && BranchAt(t.pages, t.path[0].no, t.path[0].pindex)
            && t.pages[t.path[0].no].keys == s.pages[s.path[0].no].keys
  {
    AttachKept(s, 0, n, s.path[0].pindex);
    AttachClimbed(s, 0, n, s.path[0].pindex);
  }

  /** Hanging a node in keeps the separators of its parent, even where the parent is copied. */
  lemma {:induction false} SetNodeKeys(s: Txn, n: nat)
    requires StoreOk(s) && Safe(s, 0) && s.path != [] && !SetNode(s, 0, n, s.path[0].pindex).0.failed
    ensures var t := SetNode(s, 0, n, s.path[0].pindex).0;
            && t.path != [] && t.path[0].pindex == s.path[0].pindex && BranchAt(t.pages, t.path[0].no, t.path[0].pindex)
            && t.pages[t.path[0].no].keys == s.pages[s.path[0].no].keys
  {
    hide CanOwn;
    hide Attach;
    hide CopyOnWrite;
    var i := s.path[0].pindex;
    assert CanOwn(s, s.path[0].no);
    AttachKept(s, 0, n, i);
    AttachKeys(s, n);
    var t := Attach(s, 0, n, i);
    SetNodeClimbed(t, 1, t.path[0].no, UpIndex(t, 0));
    assert t.path[0].no !in PathNos(t, 1);
    assert SetNode(s, 0, n, i).0.pages[t.path[0].no] == t.pages[t.path[0].no];
  }

  lemma {:induction false} SetLeafKeys(s: Txn, leaf: nat, idx: nat)
    requires StoreOk(s) && Safe(s, 0) && LeafAt(s, leaf) && s.pages[leaf].ents != [] && s.pages[leaf].xid == s.xid
    requires s.path != [] && !SetLeaf(s, leaf, idx).failed
    ensures Rewrote(s, SetLeaf(s, leaf, idx), idx == 0, s.pages[leaf].ents[0].key)
  {
    hide SetNode;
    SetNodeClimbed(s, 0, leaf, LeafIndex(s));
    SetNodeKeys(s, leaf);
  }

  /** An entry put or replaced in a leaf with room. */
  lemma {:induction false} RoomKeys(s: Txn, leaf: nat, idx: nat, e: Entry, replace: bool)
    requires StoreOk(s) && Safe(s, 0) && LeafAt(s, leaf)
    requires idx <= |s.pages[leaf].ents| && (replace ==> idx < |s.pages[leaf].ents|)
    requires s.path != [] && !PutRoom(s, leaf, idx, e, replace).s.failed
    ensures Rewrote(s, PutRoom(s, leaf, idx, e, replace).s, idx == 0, e.key)
  {
    hide SetLeaf;
    assert CanOwn(s, leaf);
    OwnedSafe(s, leaf);
    var (s1, no) := Owned(s, leaf);
    var ents := NewEntries(s.pages[leaf].ents, idx, e, replace);
    WriteLeafKept(s1, no, ents);
    var u := WriteLeaf(s1, no, ents);
    assert BranchAt(s.pages, s.path[0].no, s.path[0].pindex);
    assert Above(u) == Above(s);
    SetLeafKeys(u, no, idx);
  }

  /** A full branch is cut into halves of as many children, or one more on the right; the key between them moves up. */
  lemma {:induction false} CutEven(s: Txn, level: nat)
    requires CanCut(s, level) && s.pages[s.path[level].no].keys != []
    ensures var page, r := s.pages[s.path[level].no], s.supply[0];
            var (t, l) := CutLeft(CutRight(s, level), s.path[level].no, Middle(page.keys));
            && l in t.pages && r in t.pages && t.pages[l].Branch? && t.pages[r].Branch? && l != r
            && t.pages[l].ptrs + t.pages[r].ptrs == page.ptrs && t.pages[l].keys + [Pivot(page.keys)] + t.pages[r].keys == page.keys
            && |t.pages[l].ptrs| <= |t.pages[r].ptrs| <= |t.pages[l].ptrs| + 1
  {
    var no, r := s.path[level].no, s.supply[0];
    var page := s.pages[no];
    assert r in s.supply && r !in s.supply[1..];
    assert BranchAt(s.pages, no, s.path[level].pindex);
    OwnedKept(CutRight(s, level), no);
  }

  /** The separator between the halves of a pair is the key handed up with them. */
  lemma {:induction false} PairKey(s: Txn, level: nat, l: nat, r: nat, key: nat)
    requires PairReady(s, level)
    ensures var t, no, i := SetPair(s, level, l, r, key), s.path[level].no, s.path[level].pindex;
            && level < |t.path| && t.path[level] == s.path[level]
            && BranchAt(t.pages, no, i + 1) && t.pages[no].keys[i] == key
  {
    hide SetNode;
    SetPairClimbed(s, level, l, r, key);
    var i := s.path[level].pindex;
    HalfwayReady(s, level, l, key);
    SetNodeAt(s, level, l, i);
    SetNodeAt(Halfway(s, level, l, key), level, r, i + 1);
  }

  lemma {:induction false} InsertKey(s: Txn, level: nat, l: nat, r: nat, key: nat)
    requires StoreOk(s) && level <= |s.path| && Safe(s, level) && Agrees(s, level, key)
    requires InsertIntoParent(s, level, l, r, key).1
    ensures var t := InsertIntoParent(s, level, l, r, key).0;
            && level < |t.path| && BranchAt(t.pages, t.path[level].no, t.path[level].pindex + 1)
            && t.pages[t.path[level].no].keys[t.path[level].pindex] == key
  {
    hide SetPair;
    hide CutBranch;
    hide Took;
    if level == |s.path| {
      RootTook(s, l, r, key);
      PairKey(RootAdded(s), level, l, r, key);
    } else if FullAt(s, level) {
      var h, pivot := CutBranch(s, level, key), Pivot(s.pages[s.path[level].no].keys);
      SplitEntry(s, level, key);
      var (t, ok) := InsertIntoParent(h.s, level + 1, h.left, h.right, pivot);
      SplitTook(s, level, l, r, key, h, (t, ok));
      PairKey(Rejoin(t, level, h), level, l, r, key);
    } else {
      WidenTook(s, level, l, r, key);
      PairKey(Widen(s, level), level, l, r, key);
    }
  }

  /** After a split the right half stands behind its separator; the left half's own is raised where the
      entry became its first. */
  lemma {:induction false} SplitKeys(s: Txn, leaf: nat, idx: nat, key: nat, mid: nat, e: Entry)
    requires StoreOk(s) && Safe(s, 0) && LeafAt(s, leaf)
    requires idx <= |s.pages[leaf].ents| && 0 < mid < |s.pages[leaf].ents|
    requires CanHalve(s, leaf) ==>
               Safe(HalveLeaf(s, leaf, mid).0, 0) && HalveLeaf(s, leaf, mid).0.o.branch >= 4 &&
               Agrees(HalveLeaf(s, leaf, mid).0, 0, SplitKey(s.pages[leaf].ents, key, idx, mid))
    requires !PutSplit(s, leaf, idx, key, mid, e).s.failed
    ensures var t := PutSplit(s, leaf, idx, key, mid, e).s;
            && t.path != [] && BranchAt(t.pages, t.path[0].no, t.path[0].pindex)
            && (idx >= mid ==> t.path[0].pindex > 0)
            && (idx == mid ==> Above(t)[t.path[0].pindex - 1] == key)
            && (idx > mid ==> Above(t)[t.path[0].pindex - 1] == s.pages[leaf].ents[mid].key)
            && (idx == 0 && t.path[0].pindex > 0 ==> Above(t)[t.path[0].pindex - 1] == e.key)
  {
    hide InsertIntoParent;
    hide HalveLeaf;
    hide SetLeaf;
    hide Agrees;
    hide Grown;
    hide Rewrote;
    HalveLeafKept(s, leaf, mid);
    HalveLeafRight(s, leaf, mid);
    var (s1, left) := HalveLeaf(s, leaf, mid);
    var right, k := s.supply[0], SplitKey(s.pages[leaf].ents, key, idx, mid);
    var (t, ok) := InsertIntoParent(s1, 0, left, right, k);
    InsertKey(s1, 0, left, right, k);
    GrownLeaf(s1, t, left);
    GrownLeaf(s1, t, right);
    if idx < mid {
      FinishKeys(t, left, false, idx, e, idx);
    } else {
      FinishKeys(t, right, true, idx - mid, e, idx);
    }
  }

  lemma {:induction false} FinishKeys(t: Txn, find: nat, goRight: bool, i: nat, e: Entry, idx: nat)
    requires StoreOk(t) && Safe(t, 0) && t.path != [] && Safe(NextStep(t), 0)
    requires LeafAt(t, find) && t.pages[find].xid == t.xid && i <= |t.pages[find].ents|
    requires BranchAt(t.pages, t.path[0].no, t.path[0].pindex + 1)
    requires goRight ==> idx > 0
    requires !goRight ==> idx == i
    requires !FinishSplit(t, find, goRight, i, e, idx).s.failed
    ensures var u := FinishSplit(t, find, goRight, i, e, idx).s;
            && u.path != [] && BranchAt(u.pages, u.path[0].no, u.path[0].pindex)
            && (goRight ==> u.path[0].pindex > 0 && Above(u)[u.path[0].pindex - 1] == t.pages[t.path[0].no].keys[t.path[0].pindex])
            && (idx == 0 && u.path[0].pindex > 0 ==> Above(u)[u.path[0].pindex - 1] == e.key)
  {
    hide SetLeaf;
    var u := if goRight then NextStep(t) else t;
    var ents := InsertAt(t.pages[find].ents, i, e);
    WriteLeafKept(u, find, ents);
    var v := WriteLeaf(u, find, ents);
    assert Above(v) == t.pages[t.path[0].no].keys;
    SetLeafKeys(v, find, idx);
  }
}
