/** What every edit of a tree keeps: a write transaction's tree seen whole, no older page written, and
    entries removed in place (lib/bpt.c ed_bpt_del). */
module BptEdit {
  import opened BptTree
  import opened BptGrow
  import opened BptLeaf
  import opened BptStore
  import opened BptInsert
  import opened BptInsertFrames
  import opened BptInsertSplit
  import opened BptSet
  import opened BptPut
  import opened BptPutSplit
  import opened BptOrder

  // ---- no older page is written, and an edit fails only for lack of pages

  /** Any step of an edit, finished or not. */
  ghost predicate Careful(s: Txn, t: Txn) {
    Kept(s, t, s.pages.Keys)
  }

  lemma {:induction false} CarefulBy(s: Txn, t: Txn, w: set<nat>)
    requires Kept(s, t, w)
    ensures Careful(s, t)
  {
  }

  lemma {:induction false} CarefulSelf(s: Txn)
    requires StoreOk(s)
    ensures Careful(s, s)
  {
  }

  lemma {:induction false} CarefulTrans(s: Txn, t: Txn, u: Txn)
    requires Careful(s, t) && Careful(t, u)
    ensures Careful(s, u)
  {
    KeptTrans(s, t, u, s.pages.Keys, t.pages.Keys);
  }

  lemma {:induction false} PutFirstCareful(s: Txn, e: Entry)
    requires StoreOk(s) && s.path == []
    ensures Careful(s, PutFirst(s, e).s)
  {
    if s.supply != [] {
      assert s.supply[0] in s.supply && s.supply[0] !in s.supply[1..];
    }
  }

  lemma {:induction false} PutRoomCareful(s: Txn, leaf: nat, idx: nat, e: Entry, replace: bool)
    requires StoreOk(s) && Safe(s, 0) && LeafAt(s, leaf)
    requires idx <= |s.pages[leaf].ents| && (replace ==> idx < |s.pages[leaf].ents|)
    ensures Careful(s, PutRoom(s, leaf, idx, e, replace).s)
  {
    hide SetLeaf;
    hide Kept;
    hide Owned;
    if CanOwn(s, leaf) {
      OwnedSafe(s, leaf);
      var (s1, no) := Owned(s, leaf);
      var ents := NewEntries(s.pages[leaf].ents, idx, e, replace);
      WriteLeafKept(s1, no, ents);
      WrittenSet(s, s1, no, ents, idx);
    } else {
      FailedKept(s);
    }
  }

  lemma {:induction false} FailedKept(s: Txn)
    requires StoreOk(s) && s.supply == []
    ensures Careful(s, s.(failed := true))
  {
  }

  lemma {:induction false} WrittenSet(s: Txn, t: Txn, no: nat, ents: seq<Entry>, idx: nat)
    requires Kept(s, t, {}) && StoreOk(t) && Safe(t, 0) && LeafAt(t, no) && t.pages[no].xid == t.xid && ents != []
    ensures var u := WriteLeaf(t, no, ents);
            StoreOk(u) && Safe(u, 0) && LeafAt(u, no) && u.pages[no].xid == u.xid && Careful(s, SetLeaf(u, no, idx))
  {
    hide SetLeaf;
    WriteLeafKept(t, no, ents);
    var u := WriteLeaf(t, no, ents);
    SetLeafKept(u, no, idx);
    CarefulBy(s, t, {});
    CarefulBy(t, u, {no});
    CarefulBy(u, SetLeaf(u, no, idx), PathNos(u, 0));
    CarefulTrans(s, t, u);
    CarefulTrans(s, u, SetLeaf(u, no, idx));
  }

  lemma {:induction false} NextStepKept(t: Txn)
    requires StoreOk(t) && t.path != []
    ensures Kept(t, NextStep(t), {})
  {
  }

  lemma {:induction false} FinishSplitCareful(t: Txn, find: nat, goRight: bool, i: nat, e: Entry, idx: nat)
    requires StoreOk(t) && Safe(t, 0) && t.path != [] && Safe(NextStep(t), 0)
    requires LeafAt(t, find) && t.pages[find].xid == t.xid && i <= |t.pages[find].ents|
    ensures Careful(t, FinishSplit(t, find, goRight, i, e, idx).s)
  {
    hide SetLeaf;
    NextStepKept(t);
    WrittenSet(t, if goRight then NextStep(t) else t, find, InsertAt(t.pages[find].ents, i, e), idx);
  }

  lemma {:induction false} HalfRightCareful(s: Txn, leaf: nat, mid: nat)
    requires StoreOk(s) && Safe(s, 0) && LeafAt(s, leaf) && mid <= |s.pages[leaf].ents| && |s.supply| == 1
    ensures Careful(s, HalfRight(s, leaf, mid).(failed := true))
  {
    HalfRightKept(s, leaf, mid);
  }

  lemma {:induction false} TookCareful(s: Txn, res: (Txn, bool), level: nat)
    requires Took(s, res, level)
    ensures Careful(s, res.0) && (!res.1 ==> res.0.failed)
  {
  }

  lemma {:induction false} PutSplitCareful(s: Txn, leaf: nat, idx: nat, key: nat, mid: nat, e: Entry)
    requires StoreOk(s) && Safe(s, 0) && LeafAt(s, leaf)
    requires idx <= |s.pages[leaf].ents| && 0 < mid < |s.pages[leaf].ents|
    requires CanHalve(s, leaf) ==>
               Safe(HalveLeaf(s, leaf, mid).0, 0) && HalveLeaf(s, leaf, mid).0.o.branch >= 4 &&
               Agrees(HalveLeaf(s, leaf, mid).0, 0, SplitKey(s.pages[leaf].ents, key, idx, mid))
    ensures Careful(s, PutSplit(s, leaf, idx, key, mid, e).s)
  {
    hide InsertIntoParent;
    hide FinishSplit;
    hide HalveLeaf;
    hide Kept;
    hide Confined;
    hide CopyOnWrite;
    if s.supply == [] {
      FailedKept(s);
    } else if !CanHalve(s, leaf) {
      HalfRightCareful(s, leaf, mid);
    } else {
      HalveLeafKept(s, leaf, mid);
      HalveLeafRight(s, leaf, mid);
      var (s1, left) := HalveLeaf(s, leaf, mid);
      CarefulBy(s, s1, {leaf});
      HalvedCareful(s1, left, s.supply[0], SplitKey(s.pages[leaf].ents, key, idx, mid), idx, mid, e);
      CarefulTrans(s, s1, PutSplit(s, leaf, idx, key, mid, e).s);
    }
  }

  /** The rest of a split once both halves are on pages of their own. */
  lemma {:induction false} HalvedCareful(s: Txn, left: nat, right: nat, key: nat, idx: nat, mid: nat, e: Entry)
    requires StoreOk(s) && Safe(s, 0) && LeafAt(s, left) && LeafAt(s, right) && Agrees(s, 0, key)
    requires s.pages[left].xid == s.xid == s.pages[right].xid && |s.pages[left].ents| == mid && idx <= mid + |s.pages[right].ents|
    ensures var (t, ok) := InsertIntoParent(s, 0, left, right, key);
            && Careful(s, t)
            && (ok ==>
                  && t.path != [] && Safe(t, 0) && Safe(NextStep(t), 0) && StoreOk(t) && LeafAt(t, left) && LeafAt(t, right)
                  && t.pages[left] == s.pages[left] && t.pages[right] == s.pages[right] && t.xid == s.xid
                  && (idx < mid ==> Careful(s, FinishSplit(t, left, false, idx, e, idx).s))
                  && (idx >= mid ==> Careful(s, FinishSplit(t, right, true, idx - mid, e, idx).s)))
            && (!ok ==> t.failed)
  {
    hide InsertIntoParent;
    hide FinishSplit;
    hide Kept;
    var (t, ok) := InsertIntoParent(s, 0, left, right, key);
    TookCareful(s, (t, ok), 0);
    if ok {
      GrownLeaf(s, t, left);
      GrownLeaf(s, t, right);
      if idx < mid {
        FinishSplitCareful(t, left, false, idx, e, idx);
        CarefulTrans(s, t, FinishSplit(t, left, false, idx, e, idx).s);
      } else {
        FinishSplitCareful(t, right, true, idx - mid, e, idx);
        CarefulTrans(s, t, FinishSplit(t, right, true, idx - mid, e, idx).s);
      }
    }
  }

  // ---- a transaction that is not committed

  /** Copy-on-write for every split that passes the assertions of split_leaf, whether its separator is right for the new
      entry or not, and however it ends. */
  lemma {:induction false} SplitCareful(s: Txn, fs: seq<Frame>, leaf: Tree, idx: nat, key: nat, mid: nat, e: Entry)
    requires Zip(s, fs, leaf) && leaf.TLeaf? && idx <= |leaf.ents| && CutAt(leaf.ents, key, idx, mid)
    ensures StoreOk(s) && Safe(s, 0) && LeafAt(s, leaf.no) && s.pages[leaf.no].ents == leaf.ents
    ensures CanHalve(s, leaf.no) ==>
              Safe(HalveLeaf(s, leaf.no, mid).0, 0) && HalveLeaf(s, leaf.no, mid).0.o.branch >= 4 &&
              Agrees(HalveLeaf(s, leaf.no, mid).0, 0, SplitKey(leaf.ents, key, idx, mid))
    ensures Careful(s, PutSplit(s, leaf.no, idx, key, mid, e).s)
  {
    hide Careful;
    hide PutSplit;
    hide HalveLeaf;
    hide Agrees;
    hide StoredPath;
    hide SoundFrame;
    assert PathLow(fs) <= leaf.ents[mid - 1].key && leaf.ents[mid].key <= PathHigh(fs);
    if CanHalve(s, leaf.no) {
      HalveLeafKept(s, leaf.no, mid);
      LeafHolds(s, HalveLeaf(s, leaf.no, mid).0, fs, leaf);
      AgreesSound(HalveLeaf(s, leaf.no, mid).0, 0, SplitKey(leaf.ents, key, idx, mid), fs, leaf.no, 0);
    }
    PutSplitCareful(s, leaf.no, idx, key, mid, e);
  }

  /** Every page of the tree was written by an older transaction. */
  predicate Older(t: Tree, xid: nat) {
    t.xid < xid && (t.TBranch? ==> forall i | 0 <= i < |t.kids| :: Older(t.kids[i], xid))
  }

  /** The committed tree is still stored, page for page, whatever a transaction has written: its entries
      are what they were when the transaction opened. */
  lemma {:induction false} SnapshotKept(a: map<nat, Page>, b: map<nat, Page>, xid: nat, t: Tree)
    requires Stored(a, t) && Older(t, xid) && CopyOnWrite(a, b, xid)
    ensures Stored(b, t)
    decreases t
  {
    if t.TBranch? {
      forall i | 0 <= i < |t.kids| ensures Stored(b, t.kids[i]) {
        SnapshotKept(a, b, xid, t.kids[i]);
      }
    }
  }
}
