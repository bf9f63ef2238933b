/** insert_into_leaf of lib/bpt.c as values: the empty tree, a leaf with room, a replaced entry and a
    full leaf, and that none of them changes a page of an older transaction. */
module BptPut {
  import opened BptTree
  import opened BptGrow
  import opened BptLeaf
  import opened BptStore
  import opened BptInsert
  import opened BptInsertFrames
  import opened BptInsertSplit
  import opened BptSet

  /** The outcome: the transaction, whether a page was found for everything, and where the entry is. */
  datatype Put = Put(s: Txn, ok: bool, find: nat, idx: nat)

  predicate LeafAt(s: Txn, no: nat) {
    no in s.pages && s.pages[no].Leaf?
  }

  function Failed(s: Txn): Put {
    Put(s.(failed := true), false, 0, 0)
  }

  function WriteLeaf(s: Txn, no: nat, ents: seq<Entry>): Txn {
    s.(pages := s.pages[no := Leaf(s.xid, ents)])
  }

  lemma {:induction false} WriteLeafKept(s: Txn, no: nat, ents: seq<Entry>)
    requires StoreOk(s) && Safe(s, 0) && LeafAt(s, no) && s.pages[no].xid == s.xid
    ensures Kept(s, WriteLeaf(s, no, ents), {no}) && Safe(WriteLeaf(s, no, ents), 0)
  {
  }

  lemma {:induction false} OwnedSafe(s: Txn, no: nat)
    requires StoreOk(s) && Safe(s, 0) && LeafAt(s, no) && CanOwn(s, no)
    ensures var (t, c) := Owned(s, no);
            Kept(s, t, {}) && Safe(t, 0) && LeafAt(t, c) && t.pages[c] == Leaf(s.xid, s.pages[no].ents)
            && (c == no || c !in s.pages)
  {
    OwnedKept(s, no);
  }

  // ---- the empty tree

  function PutFirst(s: Txn, e: Entry): Put
    requires StoreOk(s) && s.path == []
  {
    if s.supply == [] then Failed(s)
    else
      var b := s.supply[0];
      assert b in s.supply && b !in s.supply[1..];
      var t := WriteLeaf(s.(supply := s.supply[1..]), b, [e]);
      Put(SetLeaf(t, b, 0), true, b, 0)
  }

  // ---- a leaf with room, or an entry replaced

  function NewEntries(ents: seq<Entry>, idx: nat, e: Entry, replace: bool): seq<Entry>
    requires idx <= |ents| && (replace ==> idx < |ents|)
  {
    if replace then ents[idx := e] else InsertAt(ents, idx, e)
  }

  function PutRoom(s: Txn, leaf: nat, idx: nat, e: Entry, replace: bool): Put
    requires StoreOk(s) && Safe(s, 0) && LeafAt(s, leaf)
    requires idx <= |s.pages[leaf].ents| && (replace ==> idx < |s.pages[leaf].ents|)
  {
    if !CanOwn(s, leaf) then Failed(s)
    else
      OwnedSafe(s, leaf);
      var (s1, no) := Owned(s, leaf);
      WriteLeafKept(s1, no, NewEntries(s.pages[leaf].ents, idx, e, replace));
      Put(SetLeaf(WriteLeaf(s1, no, NewEntries(s.pages[leaf].ents, idx, e, replace)), no, idx), true, no, idx)
  }

  // ---- a full leaf

  /** Both halves on pages of this transaction, the new entry not yet in either. */
  predicate CanHalve(s: Txn, leaf: nat)
    requires LeafAt(s, leaf)
  {
    s.supply != [] && (s.pages[leaf].xid == s.xid || |s.supply| >= 2)
  }

  function HalfRight(s: Txn, leaf: nat, mid: nat): Txn
    requires LeafAt(s, leaf) && s.supply != [] && mid <= |s.pages[leaf].ents|
  {
    WriteLeaf(s.(supply := s.supply[1..]), s.supply[0], s.pages[leaf].ents[mid..])
  }

  function HalveLeaf(s: Txn, leaf: nat, mid: nat): (Txn, nat)
    requires LeafAt(s, leaf) && CanHalve(s, leaf) && mid <= |s.pages[leaf].ents|
    requires StoreOk(s)
  {
    assert s.supply[0] in s.supply;
    var (t, left) := Owned(HalfRight(s, leaf, mid), leaf);
    (WriteLeaf(t, left, s.pages[leaf].ents[..mid]), left)
  }

  lemma {:induction false} HalfRightKept(s: Txn, leaf: nat, mid: nat)
    requires StoreOk(s) && Safe(s, 0) && LeafAt(s, leaf) && s.supply != [] && mid <= |s.pages[leaf].ents|
    ensures var r, right := HalfRight(s, leaf, mid), s.supply[0];
            && Kept(s, r, {}) && Safe(r, 0) && LeafAt(r, leaf) && right !in s.pages
            && multiset{right} + Loose(r) == Loose(s)
  {
    var right := s.supply[0];
    assert right in s.supply && right !in s.supply[1..];
    assert s.supply == [right] + s.supply[1..];
  }

  lemma {:induction false} HalveLeafKept(s: Txn, leaf: nat, mid: nat)
    requires StoreOk(s) && Safe(s, 0) && LeafAt(s, leaf) && CanHalve(s, leaf) && mid <= |s.pages[leaf].ents|
    ensures var (t, left) := HalveLeaf(s, leaf, mid);
            && Kept(s, t, {leaf}) && Safe(t, 0) && t == s.(supply := t.supply, pages := t.pages, gc := t.gc)
            && (left == leaf || left !in s.pages)
            && left in t.pages && t.pages[left] == Leaf(s.xid, s.pages[leaf].ents[..mid])
  {
    HalfRightKept(s, leaf, mid);
    var r := HalfRight(s, leaf, mid);
    OwnedSafe(r, leaf);
    OwnedKept(r, leaf);
    var (t, left) := Owned(r, leaf);
    WriteLeafKept(t, left, s.pages[leaf].ents[..mid]);
    HalveTrans(s, r, t, WriteLeaf(t, left, s.pages[leaf].ents[..mid]), leaf, left);
  }

  lemma {:induction false} HalveTrans(s: Txn, r: Txn, t: Txn, u: Txn, leaf: nat, left: nat)
    requires Kept(s, r, {}) && Kept(r, t, {}) && Kept(t, u, {left}) && (left == leaf || left !in r.pages)
    ensures Kept(s, u, {leaf})
  {
    KeptTrans(s, r, t, {}, {});
    KeptTrans(s, t, u, {leaf}, {left});
  }

  lemma {:induction false} HalveLeafRight(s: Txn, leaf: nat, mid: nat)
    requires StoreOk(s) && Safe(s, 0) && LeafAt(s, leaf) && CanHalve(s, leaf) && mid <= |s.pages[leaf].ents|
    ensures var (t, left) := HalveLeaf(s, leaf, mid);
            var right := s.supply[0];
            && right !in s.pages && left != right
            && right in t.pages && t.pages[right] == Leaf(s.xid, s.pages[leaf].ents[mid..])
            && multiset{left} + multiset{right} + Loose(t) == multiset{leaf} + Loose(s)
  {
    HalfRightKept(s, leaf, mid);
    var r := HalfRight(s, leaf, mid);
    OwnedLoose(r, leaf);
    OwnedKept(r, leaf);
    var (t, left) := Owned(r, leaf);
    assert s.supply[0] in r.pages;
    LooseBags(multiset{left}, multiset{s.supply[0]}, multiset{leaf}, Loose(t), Loose(r), Loose(s));
  }

  /** The path through the right half of a pair instead of the left. */
  function NextStep(s: Txn): Txn
    requires s.path != []
  {
    s.(path := s.path[0 := Step(s.path[0].no, s.path[0].pindex + 1)])
  }

  lemma {:induction false} GrownLeaf(s: Txn, t: Txn, no: nat)
    requires StoreOk(s) && Safe(s, 0) && LeafAt(s, no) && Grown(s, t, 0)
    ensures t.path != [] && no in t.pages && t.pages[no] == s.pages[no]
    ensures Safe(t, 0) && Safe(NextStep(t), 0) && StoreOk(t) && t.xid == s.xid
  {
    assert no !in PathNos(s, 0);
  }

  /** After the parents took in both halves: the new entry into its half. */
  function FinishSplit(t: Txn, find: nat, goRight: bool, i: nat, e: Entry, idx: nat): Put
    requires StoreOk(t) && Safe(t, 0) && t.path != [] && Safe(NextStep(t), 0)
    requires LeafAt(t, find) && t.pages[find].xid == t.xid && i <= |t.pages[find].ents|
  {
    var u := if goRight then NextStep(t) else t;
    WriteLeafKept(u, find, InsertAt(t.pages[find].ents, i, e));
    Put(SetLeaf(WriteLeaf(u, find, InsertAt(t.pages[find].ents, i, e)), find, idx), true, find, i)
  }

  function PutSplit(s: Txn, leaf: nat, idx: nat, key: nat, mid: nat, e: Entry): Put
    requires StoreOk(s) && Safe(s, 0) && LeafAt(s, leaf)
    requires idx <= |s.pages[leaf].ents| && 0 < mid < |s.pages[leaf].ents|
    requires CanHalve(s, leaf) ==>
               Safe(HalveLeaf(s, leaf, mid).0, 0) && HalveLeaf(s, leaf, mid).0.o.branch >= 4 &&
               Agrees(HalveLeaf(s, leaf, mid).0, 0, SplitKey(s.pages[leaf].ents, key, idx, mid))
  {
    if s.supply == [] then Failed(s)
    else if !CanHalve(s, leaf) then Failed(HalfRight(s, leaf, mid))
    else
      HalveLeafKept(s, leaf, mid);
      HalveLeafRight(s, leaf, mid);
      var (s1, left) := HalveLeaf(s, leaf, mid);
      var right := s.supply[0];
      var (t, ok) := InsertIntoParent(s1, 0, left, right, SplitKey(s.pages[leaf].ents, key, idx, mid));
      if !ok then Failed(t)
      else
        GrownLeaf(s1, t, left);
        GrownLeaf(s1, t, right);
        if idx < mid then FinishSplit(t, left, false, idx, e, idx)
        else FinishSplit(t, right, true, idx - mid, e, idx)
  }

  // ---- what a put that found its pages leaves

  lemma {:induction false} NewEntriesSorted(ents: seq<Entry>, idx: nat, e: Entry, replace: bool, lo: int, hi: int)
    requires SortedEntries(ents) && Within(ents, lo, hi) && Fits(ents, idx, e, lo, hi) && (replace ==> idx < |ents|)
    ensures SortedEntries(NewEntries(ents, idx, e, replace)) && Within(NewEntries(ents, idx, e, replace), lo, hi)
  {
    if replace {
      var r := ents[idx := e];
      forall i, j | 0 <= i < j < |r| ensures r[i].key <= r[j].key {
        if j == idx {
          assert i <= idx - 1 && ents[i].key <= ents[idx - 1].key;
        } else if i == idx {
          assert ents[idx].key <= ents[j].key;
        }
      }
    } else {
      InsertAtSorted(ents, idx, e, lo, hi);
    }
  }

  lemma {:induction false} MovedBags(a: multiset<nat>, x: multiset<nat>, y: multiset<nat>, m: multiset<nat>, n: multiset<nat>)
    requires m + x == n + y
    ensures a + m + x == a + n + y
  {
    assert a + m + x == a + (m + x);
  }

  /** The leaf rewritten on a page of this transaction, before it is hung back. */
  lemma {:induction false} OwnedLeafFits(s: Txn, fs: seq<Frame>, leaf: Tree, ents: seq<Entry>)
    requires Zip(s, fs, leaf) && CanOwn(s, leaf.no)
    requires |ents| <= s.o.leaf && SortedEntries(ents) && Within(ents, PathLow(fs), PathHigh(fs))
    ensures var (s1, no) := Owned(s, leaf.no);
            var t, leaf' := WriteLeaf(s1, no, ents), TLeaf(no, s.xid, ents);
            && Fitted(t, fs, leaf') && Holds(t, 0, fs, leaf.no) && t.xid == s.xid && t.o == s.o
            && PathBag(fs) + multiset{no} + Loose(t) == PathBag(fs) + multiset{leaf.no} + Loose(s)
  {
    hide SoundPath;
    hide StoredPath;
    hide Distinct;
    OwnedSafe(s, leaf.no);
    OwnedLoose(s, leaf.no);
    OwnedKept(s, leaf.no);
    var (s1, no) := Owned(s, leaf.no);
    WriteLeafKept(s1, no, ents);
    var t := WriteLeaf(s1, no, ents);
    MovedBags(PathBag(fs), Loose(t), Loose(s), multiset{no}, multiset{leaf.no});
    LeafHolds(s, t, fs, leaf);
  }

  lemma {:induction false} LeafHolds(s: Txn, t: Txn, fs: seq<Frame>, leaf: Tree)
    requires Holds(s, 0, fs, leaf.no) && Distinct(PathBag(fs) + multiset{leaf.no} + Loose(s))
    requires t.path == s.path && Confined(s.pages, t.pages, {leaf.no})
    ensures Holds(t, 0, fs, leaf.no)
  {
    hide KidsBag;
    hide PathBag;
    hide Loose;
    hide StoredPath;
    LeafApart(s, fs, leaf, leaf.no);
    HoldsBag(s, 0, fs, leaf.no);
    assert (PathBag(fs) + multiset{leaf.no} + Loose(s))[leaf.no] <= 1;
    forall i | 0 <= i < |fs| ensures fs[i].no != leaf.no {
      assert s.path[0 + i] == Step(fs[i].no, |fs[i].left|);
      assert s.path[i].no in PathNos(s, 0);
    }
    StoredPathConfined(s.pages, t.pages, {leaf.no}, fs, leaf.no);
  }

  lemma {:induction false} LeafSorted(s: Txn, fs: seq<Frame>, leaf: Tree)
    requires Fitted(s, fs, leaf)
    ensures |leaf.ents| <= s.o.leaf && SortedEntries(leaf.ents) && Within(leaf.ents, PathLow(fs), PathHigh(fs))
  {
  }

  lemma {:induction false} PutRoomZip(s: Txn, fs: seq<Frame>, leaf: Tree, idx: nat, e: Entry, replace: bool)
    returns (gs: seq<Frame>, leaf': Tree)
    requires Zip(s, fs, leaf) && Fits(leaf.ents, idx, e, PathLow(fs), PathHigh(fs))
    requires if replace then idx < |leaf.ents| else |leaf.ents| < s.o.leaf
    requires !PutRoom(s, leaf.no, idx, e, replace).s.failed
    ensures var p := PutRoom(s, leaf.no, idx, e, replace);
            && Zip(p.s, gs, leaf') && SameSides(fs, gs) && p.find == leaf'.no && p.idx == idx && p.s.xid == s.xid && p.s.o == s.o
            && leaf' == TLeaf(p.find, s.xid, NewEntries(leaf.ents, idx, e, replace))
            && PathBag(gs) + multiset{leaf'.no} + Loose(p.s) == PathBag(fs) + multiset{leaf.no} + Loose(s)
  {
    hide SetLeaf;
    hide Sound;
    hide SoundFrame;
    hide StoredPath;
    hide Distinct;
    hide Plug;
    LeafSorted(s, fs, leaf);
    var ents := NewEntries(leaf.ents, idx, e, replace);
    NewEntriesSorted(leaf.ents, idx, e, replace, PathLow(fs), PathHigh(fs));
    OwnedLeafFits(s, fs, leaf, ents);
    var (s1, no) := Owned(s, leaf.no);
    leaf' := TLeaf(no, s.xid, ents);
    gs := SetLeafZip(WriteLeaf(s1, no, ents), fs, leaf', leaf.no, idx);
  }
}
