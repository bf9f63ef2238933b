/** Putting an entry into a full leaf: both halves, their parents and the new entry together. */
module BptPutSplit {
  import opened BptTree
  import opened BptGrow
  import opened BptLeaf
  import opened BptStore
  import opened BptInsert
  import opened BptInsertFrames
  import opened BptInsertSplit
  import opened BptSet
  import opened BptPut

  /** A full leaf, a cut of it that split_leaf admits, and an entry that may go to the cursor. */
  ghost predicate Splittable(s: Txn, fs: seq<Frame>, leaf: Tree, idx: nat, key: nat, mid: nat, e: Entry) {
    && Zip(s, fs, leaf) && |leaf.ents| == s.o.leaf
    && CutAt(leaf.ents, key, idx, mid)
    && Fits(leaf.ents, idx, e, PathLow(fs), PathHigh(fs))
  }

  lemma {:induction false} CutBounds(s: Txn, fs: seq<Frame>, leaf: Tree, idx: nat, key: nat, mid: nat, e: Entry)
    requires Splittable(s, fs, leaf, idx, key, mid, e)
    ensures 0 < mid < |leaf.ents| && idx <= |leaf.ents|
    ensures PathLow(fs) < SplitKey(leaf.ents, key, idx, mid) <= PathHigh(fs)
  {
    hide Distinct;
    LeafSorted(s, fs, leaf);
    HalvesCut(leaf.ents, key, idx, mid, e, PathLow(fs), PathHigh(fs));
  }

  lemma {:induction false} HalvedBags(f: multiset<nat>, a: multiset<nat>, b: multiset<nat>, n: multiset<nat>, x: multiset<nat>, y: multiset<nat>)
    requires a + b + x == n + y
    ensures f + x <= f + n + y
  {
    forall p ensures (f + x)[p] <= (f + n + y)[p] {
      assert (a + b + x)[p] == (n + y)[p];
    }
  }

  /** The halves of the leaf can be handed to the parents. */
  lemma {:induction false} HalvesInsertable(s: Txn, fs: seq<Frame>, leaf: Tree, idx: nat, key: nat, mid: nat, e: Entry)
    requires Splittable(s, fs, leaf, idx, key, mid, e) && CanHalve(s, leaf.no)
    ensures 0 < mid < |leaf.ents| && idx <= |leaf.ents|
    ensures var (s1, left) := HalveLeaf(s, leaf.no, mid);
            && Insertable(s1, 0, left, s.supply[0], SplitKey(leaf.ents, key, idx, mid), fs, leaf.no, 0)
            && Agrees(s1, 0, SplitKey(leaf.ents, key, idx, mid))
            && s1.o == s.o && s1.xid == s.xid
  {
    hide Sound;
    hide SoundFrame;
    hide StoredPath;
    hide HalveLeaf;
    CutBounds(s, fs, leaf, idx, key, mid, e);
    HalveLeafKept(s, leaf.no, mid);
    HalveLeafRight(s, leaf.no, mid);
    var (s1, left) := HalveLeaf(s, leaf.no, mid);
    LeafHolds(s, s1, fs, leaf);
    HalvedBags(PathBag(fs), multiset{left}, multiset{s.supply[0]}, multiset{leaf.no}, Loose(s1), Loose(s));
    DistinctPart(PathBag(fs) + Loose(s1), PathBag(fs) + multiset{leaf.no} + Loose(s));
    AgreesSound(s1, 0, SplitKey(leaf.ents, key, idx, mid), fs, leaf.no, 0);
  }

  /** The path of one half with the other beside it. */
  function Beside(pf: Frame, other: Tree, goRight: bool): Frame {
    if goRight then RightHole(pf, other) else LeftHole(pf, other)
  }

  lemma {:induction false} BesideSound(pf: Frame, ups: seq<Frame>, o: Orders, lo: int, key: nat, hi: int, other: Tree, goRight: bool)
    requires SoundPair(pf, ups, 0, o, lo, key, hi)
    requires if goRight then Sound(other, 0, lo, key - 1, o) else Sound(other, 0, key, hi, o)
    ensures var fs := [Beside(pf, other, goRight)] + ups;
            && SoundPath(fs, 0, o)
            && PathLow(fs) == (if goRight then key else lo) && PathHigh(fs) == (if goRight then hi else key - 1)
  {
    hide Sound;
    if goRight {
      RightHoleSound(pf, ups, 0, o, lo, key, hi, other);
    } else {
      LeftHoleSound(pf, ups, 0, o, lo, key, hi, other);
    }
  }

  lemma {:induction false} BesideBag(pf: Frame, ups: seq<Frame>, other: Tree, goRight: bool)
    requires other.TLeaf?
    ensures PathBag([Beside(pf, other, goRight)] + ups) == FrameBag(pf) + multiset{other.no} + PathBag(ups)
  {
    LeftHoleBag(pf, ups, other);
    RightHoleBag(pf, ups, other);
  }

  lemma {:induction false} BesideHolds(t: Txn, pf: Frame, ups: seq<Frame>, l: nat, r: nat, other: Tree, goRight: bool)
    requires Placed(t, t, 0, l, r, pf, ups) && Stored(t.pages, other) && other.no == (if goRight then l else r)
    ensures var u := if goRight then NextStep(t) else t;
            Holds(u, 0, [Beside(pf, other, goRight)] + ups, if goRight then r else l)
  {
    var gs, u := [Beside(pf, other, goRight)] + ups, if goRight then NextStep(t) else t;
    HoleStored(t.pages, pf, ups, l, r, other);
    forall i | 0 <= i < |gs| ensures u.path[0 + i] == Step(gs[i].no, |gs[i].left|) {
      if i > 0 {
        assert t.path[1 + (i - 1)] == Step(ups[i - 1].no, |ups[i - 1].left|);
      }
    }
  }

  /** The two halves with the new entry: the one it lands in and the other. */
  function Target(ents: seq<Entry>, idx: nat, mid: nat, e: Entry, left: nat, right: nat, xid: nat): Tree
    requires idx <= |ents| && mid <= |ents|
  {
    if idx < mid then TLeaf(left, xid, LeftEntries(ents, idx, mid, e)) else TLeaf(right, xid, RightEntries(ents, idx, mid, e))
  }

  function Other(ents: seq<Entry>, idx: nat, mid: nat, left: nat, right: nat, xid: nat): Tree
    requires mid <= |ents|
  {
    if idx < mid then TLeaf(right, xid, ents[mid..]) else TLeaf(left, xid, ents[..mid])
  }

  lemma {:induction false} HalvesSound(s: Txn, fs: seq<Frame>, leaf: Tree, idx: nat, key: nat, mid: nat, e: Entry, left: nat, right: nat)
    requires Splittable(s, fs, leaf, idx, key, mid, e) && !(mid == idx && e.key < key)
    ensures 0 < mid < |leaf.ents| && idx <= |leaf.ents|
    ensures var k, lo, hi := SplitKey(leaf.ents, key, idx, mid), PathLow(fs), PathHigh(fs);
            var target, other := Target(leaf.ents, idx, mid, e, left, right, s.xid), Other(leaf.ents, idx, mid, left, right, s.xid);
            && Sound(target, 0, if idx < mid then lo else k, if idx < mid then k - 1 else hi, s.o)
            && Sound(other, 0, if idx < mid then k else lo, if idx < mid then hi else k - 1, s.o)
  {
    hide Distinct;
    LeafSorted(s, fs, leaf);
    HalvesCut(leaf.ents, key, idx, mid, e, PathLow(fs), PathHigh(fs));
  }

  lemma {:induction false} TargetEntries(fs: seq<Frame>, ents: seq<Entry>, idx: nat, mid: nat, e: Entry,
                                         left: nat, right: nat, xid: nat, pf: Frame, ups: seq<Frame>)
    requires idx <= |ents| && mid <= |ents|
    requires Before(ups) + FlattenAll(pf.left) == Before(fs) && FlattenAll(pf.right) + After(ups) == After(fs)
    ensures var target, other := Target(ents, idx, mid, e, left, right, xid), Other(ents, idx, mid, left, right, xid);
            var gs := [Beside(pf, other, idx >= mid)] + ups;
            && Before(gs) + target.ents + After(gs) == Before(fs) + InsertAt(ents, idx, e) + After(fs)
            && |Before(gs)| + (if idx < mid then idx else idx - mid) == |Before(fs)| + idx
  {
    hide FlattenAll;
    hide Before;
    hide After;
    var target, other := Target(ents, idx, mid, e, left, right, xid), Other(ents, idx, mid, left, right, xid);
    HalvesJoin(ents, idx, mid, e);
    HoleEntries(pf, ups, other);
    var l, r := LeftEntries(ents, idx, mid, e), RightEntries(ents, idx, mid, e);
    if idx < mid {
      assert Before(fs) + l + (r + FlattenAll(pf.right) + After(ups)) == Before(fs) + (l + r) + (FlattenAll(pf.right) + After(ups));
    } else {
      assert (Before(fs) + l) + r + After(fs) == Before(fs) + (l + r) + After(fs);
    }
  }

  lemma {:induction false} TargetBags(pf: multiset<nat>, ups: multiset<nat>, f: multiset<nat>, a: multiset<nat>, b: multiset<nat>,
                                      n: multiset<nat>, x: multiset<nat>, y: multiset<nat>, z: multiset<nat>)
    requires pf + ups + x == f + y && a + b + y == n + z
    ensures (pf + b + ups) + a + x == f + n + z
    ensures (pf + a + ups) + b + x == f + n + z
  {
    calc {
      (pf + b + ups) + a + x;
      (pf + ups + x) + a + b;
      f + (a + b + y);
    }
    assert (pf + a + ups) + b + x == (pf + b + ups) + a + x;
  }

  lemma {:induction false} TargetSound(s: Txn, fs: seq<Frame>, leaf: Tree, idx: nat, key: nat, mid: nat, e: Entry,
                                       left: nat, right: nat, pf: Frame, ups: seq<Frame>)
    requires Splittable(s, fs, leaf, idx, key, mid, e) && !(mid == idx && e.key < key)
    requires 0 < mid < |leaf.ents| && idx <= |leaf.ents|
    requires SoundPair(pf, ups, 0, s.o, PathLow(fs), SplitKey(leaf.ents, key, idx, mid), PathHigh(fs))
    ensures var target, other := Target(leaf.ents, idx, mid, e, left, right, s.xid), Other(leaf.ents, idx, mid, left, right, s.xid);
            var gs := [Beside(pf, other, idx >= mid)] + ups;
            SoundPath(gs, 0, s.o) && Sound(target, 0, PathLow(gs), PathHigh(gs), s.o)
  {
    hide Splittable;
    hide Sound;
    hide SoundPair;
    hide SoundFrame;
    ZipDistinct(s, fs, leaf, idx, key, mid, e);
    HalvesSound(s, fs, leaf, idx, key, mid, e, left, right);
    BesideSound(pf, ups, s.o, PathLow(fs), SplitKey(leaf.ents, key, idx, mid), PathHigh(fs),
                Other(leaf.ents, idx, mid, left, right, s.xid), idx >= mid);
  }

  lemma {:induction false} TargetBag(s: Txn, s1: Txn, t: Txn, fs: seq<Frame>, ents: seq<Entry>, idx: nat, mid: nat, e: Entry,
                                     left: nat, right: nat, leaf: nat, pf: Frame, ups: seq<Frame>)
    requires mid <= |ents| && idx <= |ents|
    requires FrameBag(pf) + PathBag(ups) + Loose(t) == PathBag(fs) + Loose(s1)
    requires |FrameBag(pf)| + |PathBag(ups)| == |PathBag(fs)| + Growth(fs, s.o)
    requires multiset{left} + multiset{right} + Loose(s1) == multiset{leaf} + Loose(s)
    ensures var target, other := Target(ents, idx, mid, e, left, right, s.xid), Other(ents, idx, mid, left, right, s.xid);
            var gs := [Beside(pf, other, idx >= mid)] + ups;
            && PathBag(gs) + multiset{target.no} + Loose(t) == PathBag(fs) + multiset{leaf} + Loose(s)
            && |PathBag(gs)| == |PathBag(fs)| + 1 + Growth(fs, s.o)
  {
    hide PathBag;
    hide FrameBag;
    hide Beside;
    var other := Other(ents, idx, mid, left, right, s.xid);
    BesideBag(pf, ups, other, idx >= mid);
    TargetBags(FrameBag(pf), PathBag(ups), PathBag(fs), multiset{left}, multiset{right}, multiset{leaf}, Loose(t), Loose(s1), Loose(s));
  }

  /** The pages once the parents have taken in both halves. */
  ghost predicate Halved(s: Txn, t: Txn, ents: seq<Entry>, mid: nat, left: nat, right: nat)
    requires mid <= |ents|
  {
    && t.xid == s.xid && t.o == s.o && StoreOk(t) && Safe(t, 0) && t.path != [] && Safe(NextStep(t), 0) && left != right
    && left in t.pages && t.pages[left] == Leaf(s.xid, ents[..mid])
    && right in t.pages && t.pages[right] == Leaf(s.xid, ents[mid..])
  }

  lemma {:induction false} TargetHolds(s: Txn, t: Txn, ents: seq<Entry>, idx: nat, mid: nat, e: Entry,
                                       left: nat, right: nat, pf: Frame, ups: seq<Frame>)
    requires mid <= |ents| && idx <= |ents| && Halved(s, t, ents, mid, left, right) && Placed(t, t, 0, left, right, pf, ups)
    requires var target, gs := Target(ents, idx, mid, e, left, right, s.xid), [Beside(pf, Other(ents, idx, mid, left, right, s.xid), idx >= mid)] + ups;
             Distinct(PathBag(gs) + multiset{target.no} + Loose(t))
    ensures var target, gs := Target(ents, idx, mid, e, left, right, s.xid), [Beside(pf, Other(ents, idx, mid, left, right, s.xid), idx >= mid)] + ups;
            var u := WriteLeaf(if idx >= mid then NextStep(t) else t, target.no, target.ents);
            && Holds(u, 0, gs, target.no) && StoreOk(u) && Safe(u, 0) && Loose(u) == Loose(t)
  {
    hide Distinct;
    hide Beside;
    hide PathBag;
    var target, other := Target(ents, idx, mid, e, left, right, s.xid), Other(ents, idx, mid, left, right, s.xid);
    var gs, v := [Beside(pf, other, idx >= mid)] + ups, if idx >= mid then NextStep(t) else t;
    BesideHolds(t, pf, ups, left, right, other, idx >= mid);
    WriteLeafKept(v, target.no, target.ents);
    LeafHolds(v, WriteLeaf(v, target.no, target.ents), gs, target);
  }

  /** The path and leaf that the new entry ends in, before the leaf is hung back. */
  lemma {:induction false} TargetFits(s: Txn, fs: seq<Frame>, leaf: Tree, idx: nat, key: nat, mid: nat, e: Entry,
                                      s1: Txn, left: nat, right: nat, t: Txn, pf: Frame, ups: seq<Frame>)
    requires Splittable(s, fs, leaf, idx, key, mid, e) && !(mid == idx && e.key < key)
    requires 0 < mid < |leaf.ents| && idx <= |leaf.ents|
    requires s1.o == s.o && s1.xid == s.xid && Halved(s, t, leaf.ents, mid, left, right)
    requires Inserted(s1, t, 0, left, right, SplitKey(leaf.ents, key, idx, mid), fs, 0, pf, ups)
    requires multiset{left} + multiset{right} + Loose(s1) == multiset{leaf.no} + Loose(s)
    ensures var target, other := Target(leaf.ents, idx, mid, e, left, right, s.xid), Other(leaf.ents, idx, mid, left, right, s.xid);
            var gs, u := [Beside(pf, other, idx >= mid)] + ups, WriteLeaf(if idx >= mid then NextStep(t) else t, target.no, target.ents);
            && Fitted(u, gs, target) && Holds(u, 0, gs, target.no)
            && PathBag(gs) + multiset{target.no} + Loose(u) == PathBag(fs) + multiset{leaf.no} + Loose(s)
            && |PathBag(gs)| == |PathBag(fs)| + 1 + Growth(fs, s.o)
  {
    hide Splittable;
    hide Sound;
    hide SoundPair;
    hide SoundPath;
    hide Holds;
    hide StoredPair;
    hide FlattenAll;
    hide Growth;
    hide PathBag;
    hide FrameBag;
    hide Beside;
    hide StoreOk;
    hide Safe;
    hide Distinct;
    ZipDistinct(s, fs, leaf, idx, key, mid, e);
    TargetBag(s, s1, t, fs, leaf.ents, idx, mid, e, left, right, leaf.no, pf, ups);
    TargetHolds(s, t, leaf.ents, idx, mid, e, left, right, pf, ups);
    TargetSound(s, fs, leaf, idx, key, mid, e, left, right, pf, ups);
  }

  lemma {:induction false} ZipDistinct(s: Txn, fs: seq<Frame>, leaf: Tree, idx: nat, key: nat, mid: nat, e: Entry)
    requires Splittable(s, fs, leaf, idx, key, mid, e)
    ensures leaf.TLeaf? && Distinct(PathBag(fs) + multiset{leaf.no} + Loose(s))
  {
  }

  lemma {:induction false} SetLeafKept(s: Txn, leaf: nat, idx: nat)
    requires StoreOk(s) && Safe(s, 0) && LeafAt(s, leaf) && s.pages[leaf].ents != [] && s.pages[leaf].xid == s.xid
    ensures Kept(s, SetLeaf(s, leaf, idx), PathNos(s, 0))
  {
    hide SetNode;
    SetNodeClimbed(s, 0, leaf, LeafIndex(s));
    var (t, ok) := SetNode(s, 0, leaf, LeafIndex(s));
    if SetLeaf(s, leaf, idx) != t {
      SetNodeOwned(s, leaf, LeafIndex(s));
      SetKeyKept(t, t.path[0].no, t.path[0].pindex - 1, s.pages[leaf].ents[0].key);
      KeptTrans(s, t, SetLeaf(s, leaf, idx), PathNos(s, 0), {t.path[0].no});
    }
  }

  /** A climb that got past the innermost ancestor owns it. */
  lemma {:induction false} SetNodeOwned(s: Txn, n: nat, idx: nat)
    requires StoreOk(s) && Safe(s, 0) && s.path != [] && BranchAt(s.pages, s.path[0].no, idx)
    requires SetNode(s, 0, n, idx).1
    ensures var t := SetNode(s, 0, n, idx).0;
            && t.path != [] && t.path[0].no in t.pages && t.pages[t.path[0].no].xid == s.xid
            && (t.path[0].no in PathNos(s, 0) || t.path[0].no !in s.pages)
  {
    AttachKept(s, 0, n, idx);
    var t := Attach(s, 0, n, idx);
    SetNodeClimbed(t, 1, t.path[0].no, UpIndex(t, 0));
    assert s.path[0].no in PathNos(s, 0);
  }

  /** One unfolding of a put into a full leaf that found its pages. */
  lemma {:induction false} UnfoldPutSplit(s: Txn, fs: seq<Frame>, leaf: Tree, idx: nat, key: nat, mid: nat, e: Entry)
    returns (s1: Txn, left: nat, t: Txn)
    requires Splittable(s, fs, leaf, idx, key, mid, e)
    requires 0 < mid < |leaf.ents| && idx <= |leaf.ents|
    requires CanHalve(s, leaf.no) ==>
               Safe(HalveLeaf(s, leaf.no, mid).0, 0) && HalveLeaf(s, leaf.no, mid).0.o.branch >= 4 &&
               Agrees(HalveLeaf(s, leaf.no, mid).0, 0, SplitKey(leaf.ents, key, idx, mid))
    requires !PutSplit(s, leaf.no, idx, key, mid, e).s.failed
    ensures var k := SplitKey(leaf.ents, key, idx, mid);
            && CanHalve(s, leaf.no) && (s1, left) == HalveLeaf(s, leaf.no, mid)
            && StoreOk(s1) && Safe(s1, 0) && s1.o.branch >= 4 && Agrees(s1, 0, k)
            && t == InsertIntoParent(s1, 0, left, s.supply[0], k).0 && !t.failed
            && Halved(s, t, leaf.ents, mid, left, s.supply[0])
    ensures var target := Target(leaf.ents, idx, mid, e, left, s.supply[0], s.xid);
            var u := WriteLeaf(if idx >= mid then NextStep(t) else t, target.no, target.ents);
            && StoreOk(u) && Safe(u, 0) && LeafAt(u, target.no) && u.pages[target.no] == Leaf(s.xid, target.ents) && target.ents != []
            && PutSplit(s, leaf.no, idx, key, mid, e)
            == Put(SetLeaf(u, target.no, idx), true, target.no, if idx < mid then idx else idx - mid)
  {
    hide InsertIntoParent;
    hide SetLeaf;
    hide SoundPath;
    hide StoredPath;
    hide Distinct;
    hide HalveLeaf;
    HalveLeafKept(s, leaf.no, mid);
    HalveLeafRight(s, leaf.no, mid);
    var h := HalveLeaf(s, leaf.no, mid);
    s1, left := h.0, h.1;
    var right, res := s.supply[0], InsertIntoParent(s1, 0, left, s.supply[0], SplitKey(leaf.ents, key, idx, mid));
    t := res.0;
    GrownLeaf(s1, t, left);
    GrownLeaf(s1, t, right);
    var target := Target(leaf.ents, idx, mid, e, left, right, s.xid);
    var v := if idx >= mid then NextStep(t) else t;
    WriteLeafKept(v, target.no, target.ents);
    SetLeafKept(WriteLeaf(v, target.no, target.ents), target.no, idx);
  }

  /** What a put leaves: one sound tree with the entry at the reported place of the reported leaf, every
      other entry where it was, and the same pages but for `grown` more taken from the supply. */
  ghost predicate Stands(s: Txn, fs: seq<Frame>, leaf: Tree, all: seq<Entry>, at: nat, e: Entry, grown: nat,
                         p: Put, gs: seq<Frame>, leaf': Tree)
  {
    && Zip(p.s, gs, leaf') && p.s.o == s.o && p.s.xid == s.xid
    && p.find == leaf'.no && p.idx < |leaf'.ents| && leaf'.ents[p.idx] == e && leaf'.xid == s.xid
    && Before(gs) + leaf'.ents + After(gs) == all && |Before(gs)| + p.idx == at
    && PathBag(gs) + multiset{leaf'.no} + Loose(p.s) == PathBag(fs) + multiset{leaf.no} + Loose(s)
    && |PathBag(gs)| == |PathBag(fs)| + grown
  }

  lemma {:induction false} PutSplitStands(s: Txn, fs: seq<Frame>, leaf: Tree, idx: nat, key: nat, mid: nat, e: Entry)
    returns (gs: seq<Frame>, leaf': Tree)
    requires Splittable(s, fs, leaf, idx, key, mid, e) && !(mid == idx && e.key < key)
    requires 0 < mid < |leaf.ents| && idx <= |leaf.ents|
    requires CanHalve(s, leaf.no) ==>
               Safe(HalveLeaf(s, leaf.no, mid).0, 0) && HalveLeaf(s, leaf.no, mid).0.o.branch >= 4 &&
               Agrees(HalveLeaf(s, leaf.no, mid).0, 0, SplitKey(leaf.ents, key, idx, mid))
    requires !PutSplit(s, leaf.no, idx, key, mid, e).s.failed
    ensures Stands(s, fs, leaf, Before(fs) + InsertAt(leaf.ents, idx, e) + After(fs), |Before(fs)| + idx, e,
                   1 + Growth(fs, s.o), PutSplit(s, leaf.no, idx, key, mid, e), gs, leaf')
  {
    hide InsertIntoParent;
    hide PutSplit;
    hide SetLeaf;
    hide HalveLeaf;
    hide Splittable;
    hide Zip;
    hide Growth;
    hide PathBag;
    hide Insertable;
    hide Inserted;
    hide Fitted;
    hide Holds;
    hide StoreOk;
    hide Safe;
    hide Beside;
    hide Agrees;
    hide Distinct;
    hide Halved;
    hide Before;
    hide After;
    hide FlattenAll;
    hide Bag;
    ZipDistinct(s, fs, leaf, idx, key, mid, e);
    var s1, left, t := UnfoldPutSplit(s, fs, leaf, idx, key, mid, e);
    var right := s.supply[0];
    HalvesInsertable(s, fs, leaf, idx, key, mid, e);
    var pf, ups := InsertIntoParentSound(s1, 0, left, right, SplitKey(leaf.ents, key, idx, mid), fs, leaf.no, 0);
    HalvedLoose(s, fs, leaf, idx, key, mid, e);
    TargetFits(s, fs, leaf, idx, key, mid, e, s1, left, right, t, pf, ups);
    leaf' := Target(leaf.ents, idx, mid, e, left, right, s.xid);
    var hs, u := [Beside(pf, Other(leaf.ents, idx, mid, left, right, s.xid), idx >= mid)] + ups,
                 WriteLeaf(if idx >= mid then NextStep(t) else t, leaf'.no, leaf'.ents);
    gs := SetLeafZip(u, hs, leaf', leaf'.no, idx);
    InsertedSides(s1, t, left, right, SplitKey(leaf.ents, key, idx, mid), fs, pf, ups);
    TargetEntries(fs, leaf.ents, idx, mid, e, left, right, s.xid, pf, ups);
  }

  lemma {:induction false} InsertedSides(s: Txn, t: Txn, l: nat, r: nat, key: nat, fs: seq<Frame>, pf: Frame, ups: seq<Frame>)
    requires Inserted(s, t, 0, l, r, key, fs, 0, pf, ups)
    ensures Before(ups) + FlattenAll(pf.left) == Before(fs) && FlattenAll(pf.right) + After(ups) == After(fs)
  {
  }

  lemma {:induction false} HalvedLoose(s: Txn, fs: seq<Frame>, leaf: Tree, idx: nat, key: nat, mid: nat, e: Entry)
    requires Splittable(s, fs, leaf, idx, key, mid, e) && CanHalve(s, leaf.no) && mid <= |leaf.ents|
    ensures var (s1, left) := HalveLeaf(s, leaf.no, mid);
            multiset{left} + multiset{s.supply[0]} + Loose(s1) == multiset{leaf.no} + Loose(s)
  {
    HalveLeafRight(s, leaf.no, mid);
  }
}
