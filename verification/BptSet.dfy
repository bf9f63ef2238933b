/** Putting an entry at the cursor (lib/bpt.c set_leaf, split_leaf, insert_into_leaf), as values. */
module BptSet {
  import opened BptTree
  import opened BptGrow
  import opened BptLeaf
  import opened BptStore
  import opened BptInsert
  import opened BptInsertFrames
  import opened BptInsertSplit

  /** The transaction holds one sound tree, `leaf` at the end of the path `fs`, and every page in the
      tree, the supply and the discard list occurs once. */
  ghost predicate Zip(s: Txn, fs: seq<Frame>, leaf: Tree) {
    && Fitted(s, fs, leaf) && Holds(s, 0, fs, leaf.no)
    && s.root == Some(Plug(fs, leaf).no)
  }

  /** The same but for what the innermost branch and the root name below them. */
  ghost predicate Fitted(s: Txn, fs: seq<Frame>, leaf: Tree) {
    && StoreOk(s) && Safe(s, 0)
    && leaf.TLeaf? && leaf.no in s.pages && s.pages[leaf.no] == PageOf(leaf)
    && SoundPath(fs, 0, s.o) && Sound(leaf, 0, PathLow(fs), PathHigh(fs), s.o)
    && Distinct(PathBag(fs) + multiset{leaf.no} + Loose(s))
  }

  // ---- set_leaf

  function LeafIndex(s: Txn): nat {
    if s.path == [] then 0 else s.path[0].pindex
  }

  /** Hangs the leaf into the tree and, if its first entry changed, raises its separator. */
  function SetLeaf(s: Txn, leaf: nat, idx: nat): Txn
    requires StoreOk(s) && Safe(s, 0) && leaf in s.pages && s.pages[leaf].Leaf? && s.pages[leaf].ents != []
    requires s.pages[leaf].xid == s.xid
  {
    SetNodeClimbed(s, 0, leaf, LeafIndex(s));
    var (t, ok) := SetNode(s, 0, leaf, LeafIndex(s));
    if ok && idx == 0 && t.path != [] && t.path[0].pindex > 0 then
      SetKey(t, t.path[0].no, t.path[0].pindex - 1, s.pages[leaf].ents[0].key)
    else t
  }

  lemma {:induction false} PlugNo(fs: seq<Frame>, t: Tree)
    ensures Plug(fs, t).no == if fs == [] then t.no else fs[|fs| - 1].no
    decreases |fs|
  {
    if fs != [] {
      PlugNo(fs[1..], PlugNode(fs[0], t));
    }
  }

  /** The separator before the hole may be raised to any key the hole may hold. */
  function Raised(f: Frame, key: nat): Frame
    requires 0 < |f.left| <= |f.keys|
  {
    f.(keys := f.keys[|f.left| - 1 := key])
  }

  lemma {:induction false} RaisedFrame(f: Frame, h: nat, lo: int, hi: int, o: Orders, key: nat)
    requires SoundFrame(f, 1, h, lo, hi, o) && |f.left| > 0
    requires Low(f.keys, lo, |f.left|) <= key <= High(f.keys, hi, |f.left|)
    ensures SoundFrame(Raised(f, key), 1, h, lo, hi, o)
    ensures Low(Raised(f, key).keys, lo, |f.left|) == key
    ensures High(Raised(f, key).keys, hi, |f.left|) == High(f.keys, hi, |f.left|)
  {
    hide Sound;
    hide SoundSide;
    var g := Raised(f, key);
    RaisedKeys(f.keys, |f.left|, lo, hi, key);
    RaisedLeft(f, h, lo, hi, o, key);
    RaisedRight(f, h, lo, hi, o, key);
    MakeFrame(g, 1, h, lo, hi, o);
  }

  lemma {:induction false} RaisedKeys(keys: seq<nat>, n: nat, lo: int, hi: int, key: nat)
    requires 0 < n <= |keys| && Separators(keys, lo, hi) && Low(keys, lo, n) <= key <= High(keys, hi, n)
    ensures Separators(keys[n - 1 := key], lo, hi)
  {
  }

  lemma {:induction false} RaisedLeft(f: Frame, h: nat, lo: int, hi: int, o: Orders, key: nat)
    requires SoundFrame(f, 1, h, lo, hi, o) && |f.left| > 0 && Low(f.keys, lo, |f.left|) <= key
    ensures SoundSide(f.left, Raised(f, key).keys, 0, h, lo, hi, o)
  {
    hide Sound;
    var g := Raised(f, key);
    forall i | 0 <= i < |f.left| ensures Sound(f.left[i], h, Low(g.keys, lo, 0 + i), High(g.keys, hi, 0 + i), o) {
      SoundWiden(f.left[i], h, Low(f.keys, lo, 0 + i), High(f.keys, hi, 0 + i), Low(g.keys, lo, i), High(g.keys, hi, i), o);
    }
  }

  lemma {:induction false} RaisedRight(f: Frame, h: nat, lo: int, hi: int, o: Orders, key: nat)
    requires SoundFrame(f, 1, h, lo, hi, o) && |f.left| > 0
    ensures SoundSide(f.right, Raised(f, key).keys, |f.left| + 1, h, lo, hi, o)
  {
    hide Sound;
    var n, g := |f.left|, Raised(f, key);
    forall i | 0 <= i < |f.right|
      ensures Sound(f.right[i], h, Low(g.keys, lo, n + 1 + i), High(g.keys, hi, n + 1 + i), o)
    {
      assert Low(g.keys, lo, n + 1 + i) == Low(f.keys, lo, n + 1 + i);
      assert High(g.keys, hi, n + 1 + i) == High(f.keys, hi, n + 1 + i);
    }
  }

  lemma {:induction false} RaisedSound(fs: seq<Frame>, h: nat, o: Orders, key: nat)
    requires fs != [] && SoundPath(fs, h, o) && |fs[0].left| > 0
    requires PathLow(fs) <= key <= PathHigh(fs)
    ensures var gs := [Raised(fs[0], key)] + fs[1..];
            SoundPath(gs, h, o) && PathLow(gs) == key && PathHigh(gs) == PathHigh(fs)
  {
    hide Sound;
    RaisedFrame(fs[0], h, PathLow(fs[1..]), PathHigh(fs[1..]), o, key);
    var gs := [Raised(fs[0], key)] + fs[1..];
    assert gs[1..] == fs[1..];
    assert forall f | f in gs :: f == gs[0] || f in fs;
  }

  lemma {:induction false} LeafApart(s: Txn, fs: seq<Frame>, leaf: Tree, hole: nat)
    requires Holds(s, 0, fs, hole) && Distinct(PathBag(fs) + multiset{leaf.no} + Loose(s))
    ensures Clear(s, 0, fs) && leaf.no !in PathNos(s, 0)
  {
    HoldsBag(s, 0, fs, hole);
    assert s.path[0..] == s.path;
    DistinctPart(StepsBag(s.path[0..]) + KidsBag(fs), PathBag(fs) + multiset{leaf.no} + Loose(s));
    ClearByBag(s, 0, KidsBag(fs));
    DistinctPart(StepsBag(s.path[0..]) + multiset{leaf.no}, PathBag(fs) + multiset{leaf.no} + Loose(s));
    ClearByBag(s, 0, multiset{leaf.no});
  }

  lemma {:induction false} ClimbFrames(s: Txn, fs: seq<Frame>, leaf: Tree, hole: nat) returns (gs: seq<Frame>)
    requires Fitted(s, fs, leaf) && Holds(s, 0, fs, hole) && leaf.xid == s.xid && fs != []
    requires s.path != [] && !SetNode(s, 0, leaf.no, LeafIndex(s)).0.failed
    ensures var t := SetNode(s, 0, leaf.no, LeafIndex(s)).0;
            && Climbed(s, t, 0) && Holds(t, 0, gs, leaf.no) && Copied(fs, gs, s.xid)
            && t.root == Some(t.path[|t.path| - 1].no)
            && leaf.no in t.pages && t.pages[leaf.no] == s.pages[leaf.no]
  {
    hide PathLow;
    hide PathHigh;
    hide Loose;
    hide Sound;
    hide SoundPath;
    hide Distinct;
    hide StoredPath;
    hide SetNode;
    hide Copied;
    var i := LeafIndex(s);
    HoldsTail(s, 0, fs, hole);
    LeafApart(s, fs, leaf, hole);
    assert Clear(s, 0, fs[1..]);
    var hs := SetNodeFrames(s, 0, leaf.no, i, fs[1..], fs[0].no);
    SetNodeClimbed(s, 0, leaf.no, i);
    HoldsPage(s, 0, fs, hole);
    gs := JoinFrames(s, SetNode(s, 0, leaf.no, i).0, 0, fs, hole, leaf.no, hs);
  }

  lemma {:induction false} ClimbBag(s: Txn, t: Txn, fs: seq<Frame>, gs: seq<Frame>, hole: nat, leaf: nat)
    requires Holds(s, 0, fs, hole) && Holds(t, 0, gs, leaf) && Copied(fs, gs, s.xid)
    requires StepsBag(t.path[0..]) + Loose(t) == StepsBag(s.path[0..]) + Loose(s)
    ensures PathBag(gs) + multiset{leaf} + Loose(t) == PathBag(fs) + multiset{leaf} + Loose(s)
  {
    hide Copied;
    HoldsBag(s, 0, fs, hole);
    HoldsBag(t, 0, gs, leaf);
    CopiedKids(fs, gs, s.xid);
    KidsAdded(StepsBag(t.path[0..]), StepsBag(s.path[0..]), KidsBag(fs), multiset{leaf}, Loose(t), Loose(s));
  }

  lemma {:induction false} KidsAdded(a: multiset<nat>, b: multiset<nat>, k: multiset<nat>, m: multiset<nat>, x: multiset<nat>, y: multiset<nat>)
    requires a + x == b + y
    ensures (a + k) + m + x == (b + k) + m + y
  {
    assert (a + k) + m + x == (a + x) + k + m;
  }

  /** A climb from a leaf of this transaction makes the tree whole again. */
  lemma {:induction false} ClimbZip(s: Txn, fs: seq<Frame>, leaf: Tree, hole: nat) returns (gs: seq<Frame>)
    requires Fitted(s, fs, leaf) && Holds(s, 0, fs, hole) && leaf.xid == s.xid
    requires !SetNode(s, 0, leaf.no, LeafIndex(s)).0.failed
    ensures var t := SetNode(s, 0, leaf.no, LeafIndex(s)).0;
            && Zip(t, gs, leaf) && Copied(fs, gs, s.xid) && t.o == s.o && t.xid == s.xid
            && PathBag(gs) + multiset{leaf.no} + Loose(t) == PathBag(fs) + multiset{leaf.no} + Loose(s)
  {
    if fs == [] {
      gs := [];
    } else {
      gs := ClimbFrames(s, fs, leaf, hole);
      SetNodeBag(s, 0, leaf.no, LeafIndex(s));
      ClimbedZip(s, SetNode(s, 0, leaf.no, LeafIndex(s)).0, fs, gs, leaf, hole);
    }
  }

  lemma {:induction false} ClimbedZip(s: Txn, t: Txn, fs: seq<Frame>, gs: seq<Frame>, leaf: Tree, hole: nat)
    requires Fitted(s, fs, leaf) && Holds(s, 0, fs, hole) && fs != []
    requires Climbed(s, t, 0) && Holds(t, 0, gs, leaf.no) && Copied(fs, gs, s.xid)
    requires t.root == Some(t.path[|t.path| - 1].no)
    requires leaf.no in t.pages && t.pages[leaf.no] == s.pages[leaf.no]
    requires StepsBag(t.path[0..]) + Loose(t) == StepsBag(s.path[0..]) + Loose(s)
    ensures Zip(t, gs, leaf)
    ensures PathBag(gs) + multiset{leaf.no} + Loose(t) == PathBag(fs) + multiset{leaf.no} + Loose(s)
  {
    hide Sound;
    hide StoredPath;
    hide Distinct;
    CopiedSound(fs, gs, s.xid, 0, s.o);
    ClimbBag(s, t, fs, gs, hole, leaf.no);
    PlugNo(gs, leaf);
    assert t.path[0 + (|gs| - 1)] == Step(gs[|gs| - 1].no, |gs[|gs| - 1].left|);
  }

  /** Two paths that differ only in pages and separators. */
  ghost predicate SameSides(fs: seq<Frame>, gs: seq<Frame>) {
    Before(gs) == Before(fs) && After(gs) == After(fs) && |PathBag(gs)| == |PathBag(fs)|
  }

  lemma {:induction false} RaiseStored(t: Txn, u: Txn, gs: seq<Frame>, leaf: Tree, key: nat)
    requires Zip(t, gs, leaf) && gs != [] && |gs[0].left| > 0 && |gs[0].left| <= |gs[0].keys|
    requires t.path != [] && u.path == t.path
    requires gs[0].no in t.pages && t.pages[gs[0].no].Branch?
    requires u.pages == t.pages[gs[0].no := t.pages[gs[0].no].(keys := gs[0].keys[|gs[0].left| - 1 := key])]
    ensures Holds(u, 0, [Raised(gs[0], key)] + gs[1..], leaf.no)
    ensures leaf.no in u.pages && u.pages[leaf.no] == t.pages[leaf.no]
  {
    hide Sound;
    hide SoundPath;
    hide StoredPath;
    hide KidsBag;
    hide Safe;
    var f, hs := gs[0], [Raised(gs[0], key)] + gs[1..];
    HoldsTail(t, 0, gs, leaf.no);
    HoldsPage(t, 0, gs, leaf.no);
    LeafApart(t, gs, leaf, leaf.no);
    assert f.no in PathNos(t, 0) by { assert t.path[0].no == f.no; }
    assert [f] + gs[1..] == gs;
    DistinctPart(PathBag(gs) + Loose(t), PathBag(gs) + multiset{leaf.no} + Loose(t));
    KidsStored(t, u, 0, f, gs[1..], leaf.no);
    RaiseUpper(t, u, gs, leaf.no);
    RaisedHolds(u, gs, leaf.no, key);
  }

  lemma {:induction false} RaiseUpper(t: Txn, u: Txn, gs: seq<Frame>, hole: nat)
    requires Holds(t, 0, gs, hole) && Safe(t, 0) && gs != [] && Clear(t, 0, gs) && u.path == t.path
    requires Confined(t.pages, u.pages, {gs[0].no})
    ensures Holds(u, 1, gs[1..], gs[0].no)
  {
    HoldsTail(t, 0, gs, hole);
    assert gs[0].no in PathNos(t, 0) by { assert t.path[0].no == gs[0].no; }
    forall i | 0 <= i < |gs[1..]| ensures gs[1..][i].no != gs[0].no {
      assert t.path[1 + i] == Step(gs[1..][i].no, |gs[1..][i].left|);
    }
    StoredPathConfined(t.pages, u.pages, {gs[0].no}, gs[1..], gs[0].no);
  }

  lemma {:induction false} RaisedHolds(u: Txn, gs: seq<Frame>, hole: nat, key: nat)
    requires gs != [] && 0 < |gs[0].left| <= |gs[0].keys| && Holds(u, 1, gs[1..], gs[0].no)
    requires u.path[0] == Step(gs[0].no, |gs[0].left|)
    requires StoredFrame(u.pages, Raised(gs[0], key), hole)
    ensures Holds(u, 0, [Raised(gs[0], key)] + gs[1..], hole)
  {
    var hs := [Raised(gs[0], key)] + gs[1..];
    assert hs[1..] == gs[1..];
    forall i | 0 <= i < |hs| ensures u.path[0 + i] == Step(hs[i].no, |hs[i].left|) {
      if i > 0 {
        assert u.path[1 + (i - 1)] == Step(gs[1..][i - 1].no, |gs[1..][i - 1].left|);
      }
    }
  }

  lemma {:induction false} RaiseZip(t: Txn, gs: seq<Frame>, leaf: Tree, key: nat)
    requires Zip(t, gs, leaf) && gs != [] && |gs[0].left| > 0 && gs[0].xid == t.xid
    requires BranchAt(t.pages, gs[0].no, |gs[0].left|) && |gs[0].left| <= |gs[0].keys|
    requires t.pages[gs[0].no].xid == gs[0].xid && t.pages[gs[0].no].keys == gs[0].keys && t.path != []
    requires leaf.ents != [] && leaf.ents[0].key == key
    ensures var u, hs := SetKey(t, gs[0].no, |gs[0].left| - 1, key), [Raised(gs[0], key)] + gs[1..];
            Zip(u, hs, leaf) && SameSides(gs, hs) && PathBag(hs) == PathBag(gs) && Loose(u) == Loose(t)
  {
    hide StoredPath;
    hide Distinct;
    hide SoundPath;
    hide Sound;
    hide KidsBag;
    hide SameSides;
    hide PathBag;
    hide PathLow;
    hide PathHigh;
    hide Safe;
    hide StoreOk;
    hide Holds;
    var u, hs := SetKey(t, gs[0].no, |gs[0].left| - 1, key), [Raised(gs[0], key)] + gs[1..];
    SetKeySafe(t, gs[0].no, |gs[0].left| - 1, key);
    RaiseLeafSound(gs, leaf, key, t.o);
    RaiseStored(t, u, gs, leaf, key);
    RaiseSides(gs, key);
    PlugNo(hs, leaf);
    PlugNo(gs, leaf);
  }

  lemma {:induction false} SetKeySafe(s: Txn, no: nat, i: nat, key: nat)
    requires StoreOk(s) && Safe(s, 0) && no in s.pages && s.pages[no].Branch? && i < |s.pages[no].keys| && s.pages[no].xid == s.xid
    ensures StoreOk(SetKey(s, no, i, key)) && Safe(SetKey(s, no, i, key), 0)
  {
  }

  lemma {:induction false} RaisePage(t: Txn, gs: seq<Frame>, leaf: Tree)
    requires Zip(t, gs, leaf) && gs != []
    ensures t.path != [] && t.path[0] == Step(gs[0].no, |gs[0].left|) && BranchAt(t.pages, gs[0].no, |gs[0].left|)
    ensures t.pages[gs[0].no].xid == gs[0].xid && t.pages[gs[0].no].keys == gs[0].keys
    ensures |gs[0].left| <= |gs[0].keys|
  {
    hide Sound;
    hide Distinct;
    HoldsTail(t, 0, gs, leaf.no);
    HoldsPage(t, 0, gs, leaf.no);
  }

  lemma {:induction false} RaiseLeafSound(gs: seq<Frame>, leaf: Tree, key: nat, o: Orders)
    requires gs != [] && SoundPath(gs, 0, o) && |gs[0].left| > 0
    requires leaf.TLeaf? && leaf.ents != [] && leaf.ents[0].key == key && Sound(leaf, 0, PathLow(gs), PathHigh(gs), o)
    ensures |gs[0].left| <= |gs[0].keys|
    ensures var hs := [Raised(gs[0], key)] + gs[1..];
            SoundPath(hs, 0, o) && Sound(leaf, 0, PathLow(hs), PathHigh(hs), o)
  {
    RaisedSound(gs, 0, o, key);
  }

  lemma {:induction false} RaiseSides(gs: seq<Frame>, key: nat)
    requires gs != [] && 0 < |gs[0].left| <= |gs[0].keys|
    ensures var hs := [Raised(gs[0], key)] + gs[1..]; SameSides(gs, hs) && PathBag(hs) == PathBag(gs)
  {
    assert ([Raised(gs[0], key)] + gs[1..])[1..] == gs[1..];
  }

  lemma {:induction false} PathHead(t: Txn, gs: seq<Frame>, leaf: Tree)
    requires Zip(t, gs, leaf)
    ensures t.path == [] <==> gs == []
    ensures gs != [] ==> t.path[0] == Step(gs[0].no, |gs[0].left|)
  {
    if gs != [] {
      HoldsTail(t, 0, gs, leaf.no);
    }
  }

  /** Raising the separator left of the innermost child. */
  lemma {:induction false} RaiseTop(t: Txn, gs: seq<Frame>, leaf: Tree) returns (hs: seq<Frame>)
    requires leaf.TLeaf? && Zip(t, gs, leaf) && leaf.ents != [] && t.path != [] && t.path[0].pindex > 0
    requires forall f | f in gs :: f.xid == t.xid
    ensures BranchAt(t.pages, t.path[0].no, t.path[0].pindex)
    ensures var u := SetKey(t, t.path[0].no, t.path[0].pindex - 1, leaf.ents[0].key);
            Zip(u, hs, leaf) && SameSides(gs, hs) && PathBag(hs) == PathBag(gs) && Loose(u) == Loose(t)
  {
    hide Zip;
    hide SameSides;
    hide PathBag;
    hide Loose;
    PathHead(t, gs, leaf);
    RaisePage(t, gs, leaf);
    RaiseZip(t, gs, leaf, leaf.ents[0].key);
    hs := [Raised(gs[0], leaf.ents[0].key)] + gs[1..];
  }

  /** set_leaf restores the whole tree around the leaf, entries and pages unchanged. */
  lemma {:induction false} SetLeafZip(s: Txn, fs: seq<Frame>, leaf: Tree, hole: nat, idx: nat) returns (gs: seq<Frame>)
    requires Fitted(s, fs, leaf) && Holds(s, 0, fs, hole) && leaf.xid == s.xid && leaf.ents != []
    requires !SetLeaf(s, leaf.no, idx).failed
    ensures var t := SetLeaf(s, leaf.no, idx);
            && Zip(t, gs, leaf) && SameSides(fs, gs) && t.o == s.o && t.xid == s.xid
            && PathBag(gs) + multiset{leaf.no} + Loose(t) == PathBag(fs) + multiset{leaf.no} + Loose(s)
  {
    hide SetNode;
    hide Zip;
    hide Copied;
    hide Before;
    hide After;
    hide PathBag;
    hide Loose;
    hide Sound;
    hide SoundPath;
    hide Distinct;
    hide PathLow;
    hide PathHigh;
    hide Holds;
    hide Climbed;
    SetNodeClimbed(s, 0, leaf.no, LeafIndex(s));
    var t := SetNode(s, 0, leaf.no, LeafIndex(s)).0;
    gs := ClimbZip(s, fs, leaf, hole);
    CopiedSame(fs, gs, s.xid);
    if SetLeaf(s, leaf.no, idx) != t {
      gs := RaiseTop(t, gs, leaf);
    }
  }
}
