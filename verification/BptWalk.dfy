/** Moving a cursor from leaf to leaf (lib/bpt.c move_first, move_last, move_right, move_left). */
module BptWalk {
  import opened BptTree
  import opened BptGrow
  import opened BptLeaf
  import opened BptStore
  import opened BptInsertFrames
  import opened BptSet
  import opened BptOrder
  import opened BptWhole
  import opened BptFind
  import opened BptOutcome

  /** No leaf of the tree is without entries. */
  predicate NoEmptyLeaf(t: Tree) {
    match t
    case TLeaf(_, _, ents) => ents != []
    case TBranch(_, _, _, kids) => forall i | 0 <= i < |kids| :: NoEmptyLeaf(kids[i])
  }

  lemma {:induction false} NoEmptyPlug(fs: seq<Frame>, t: Tree)
    requires NoEmptyLeaf(Plug(fs, t))
    ensures NoEmptyLeaf(t)
    decreases |fs|
  {
    if fs != [] {
      NoEmptyPlug(fs[1..], PlugNode(fs[0], t));
      assert PlugNode(fs[0], t).kids[|fs[0].left|] == t;
    }
  }

  /** The leaves at the two ends of a tree. */
  function FirstLeaf(t: Tree): Tree {
    if t.TLeaf? || t.kids == [] then t else FirstLeaf(t.kids[0])
  }

  function LastLeaf(t: Tree): Tree {
    if t.TLeaf? || t.kids == [] then t else LastLeaf(t.kids[|t.kids| - 1])
  }

  /** The leaf right of a path, or the first of all. */
  function LeafAfter(fs: seq<Frame>, tree: Tree): Tree {
    if fs == [] then FirstLeaf(tree)
    else if fs[0].right != [] then FirstLeaf(fs[0].right[0])
    else LeafAfter(fs[1..], tree)
  }

  /** The leaf left of a path, or the last of all. */
  function LeafBefore(fs: seq<Frame>, tree: Tree): Tree {
    if fs == [] then LastLeaf(tree)
    else if fs[0].left != [] then LastLeaf(fs[0].left[|fs[0].left| - 1])
    else LeafBefore(fs[1..], tree)
  }

  predicate HasEntry(t: Tree) {
    t.TLeaf? && t.ents != []
  }

  lemma {:induction false} EndsHave(t: Tree, h: nat, lo: int, hi: int, o: Orders)
    requires NoEmptyLeaf(t) && Sound(t, h, lo, hi, o)
    ensures HasEntry(FirstLeaf(t)) && HasEntry(LastLeaf(t))
    decreases t
  {
    if t.TBranch? {
      var i := |t.kids| - 1;
      EndsHave(t.kids[0], h - 1, Low(t.keys, lo, 0), High(t.keys, hi, 0), o);
      EndsHave(t.kids[i], h - 1, Low(t.keys, lo, i), High(t.keys, hi, i), o);
    }
  }

  /** In a tree without empty leaves every step enters a leaf with entries. */
  lemma {:induction false} SidesHave(fs: seq<Frame>, t: Tree, tree: Tree, h: nat, o: Orders)
    requires SoundPath(fs, h, o) && NoEmptyLeaf(Plug(fs, t)) && HasEntry(FirstLeaf(tree)) && HasEntry(LastLeaf(tree))
    ensures HasEntry(LeafAfter(fs, tree)) && HasEntry(LeafBefore(fs, tree))
    decreases |fs|
  {
    if fs != [] {
      var f, n := fs[0], PlugNode(fs[0], t);
      NoEmptyPlug(fs[1..], n);
      SidesHave(fs[1..], n, tree, h + 1, o);
      if f.right != [] {
        assert n.kids[|f.left| + 1] == f.right[0];
        EndsHave(f.right[0], h, Low(f.keys, PathLow(fs[1..]), |f.left| + 1), High(f.keys, PathHigh(fs[1..]), |f.left| + 1), o);
      }
      if f.left != [] {
        var i := |f.left| - 1;
        assert n.kids[i] == f.left[i];
        EndsHave(f.left[i], h, Low(f.keys, PathLow(fs[1..]), i), High(f.keys, PathHigh(fs[1..]), i), o);
      }
    }
  }

  /** One step back up. */
  lemma {:induction false} AscendStep(s: Txn, tree: Tree, fs: seq<Frame>, t: Tree, h: nat)
    requires Descended(s, tree, fs, t, h) && fs != []
    ensures s.path != [] && s.path[0] == Step(fs[0].no, |fs[0].left|)
    ensures Descended(s.(path := s.path[1..]), tree, fs[1..], PlugNode(fs[0], t), h + 1)
    ensures fs[0].no in s.pages && s.pages[fs[0].no] == PageOf(PlugNode(fs[0], t))
    ensures |fs[0].left| + |fs[0].right| == |fs[0].keys|
    ensures fs[0].right == [] ==> Before(fs[1..]) + Flatten(PlugNode(fs[0], t)) == Before(fs) + Flatten(t)
    ensures fs[0].left == [] ==> Before(fs[1..]) == Before(fs)
  {
    hide Distinct;
    hide StoredPath;
    hide SoundSide;
    hide Before;
    hide Flatten;
    hide FlattenAll;
    hide Sound;
    hide Separators;
    hide Bag;
    HoldsTail(s, 0, fs, t.no);
    AscendHolds(s, fs, t.no);
    PlugNodeSound(fs[0], t, h, PathLow(fs[1..]), PathHigh(fs[1..]), s.o);
    NodeStored(s.pages, fs, t);
    AscendBefore(fs, t);
  }

  lemma {:induction false} AscendBefore(fs: seq<Frame>, t: Tree)
    requires fs != []
    ensures fs[0].right == [] ==> Before(fs[1..]) + Flatten(PlugNode(fs[0], t)) == Before(fs) + Flatten(t)
    ensures fs[0].left == [] ==> Before(fs[1..]) == Before(fs)
  {
    FlattenAppend(fs[0].left + [t], fs[0].right);
    FlattenAppend(fs[0].left, [t]);
    assert FlattenAll([t]) == Flatten(t);
  }

  lemma {:induction false} NodeStored(pages: map<nat, Page>, fs: seq<Frame>, t: Tree)
    requires StoredPath(pages, fs, t.no) && Stored(pages, t) && fs != []
    ensures Stored(pages, PlugNode(fs[0], t)) && fs[0].no in pages && pages[fs[0].no] == PageOf(PlugNode(fs[0], t))
  {
    StoredPlug(pages, fs[..1], t);
    assert Plug(fs[..1], t) == Plug(fs[..1][1..], PlugNode(fs[0], t));
  }

  lemma {:induction false} AscendHolds(s: Txn, fs: seq<Frame>, hole: nat)
    requires Holds(s, 0, fs, hole) && fs != []
    ensures s.path != [] && Holds(s.(path := s.path[1..]), 0, fs[1..], fs[0].no)
  {
    hide StoredFrame;
    forall i | 0 <= i < |fs[1..]| ensures s.path[1..][0 + i] == Step(fs[1..][i].no, |fs[1..][i].left|) {
      assert s.path[0 + (i + 1)] == Step(fs[i + 1].no, |fs[i + 1].left|);
    }
  }

  /** The entries left of child `i`. */
  lemma {:induction false} OpenBefore(fs: seq<Frame>, t: Tree, i: nat)
    requires t.TBranch? && i < |t.kids|
    ensures Before([Open(t, i)] + fs) == Before(fs) + FlattenAll(t.kids[..i])
  {
    assert ([Open(t, i)] + fs)[1..] == fs;
  }

  /** The entries of the children up to child `i`, and of child `i`. */
  lemma {:induction false} FlattenNext(ts: seq<Tree>, i: nat)
    requires i < |ts|
    ensures FlattenAll(ts[..i + 1]) == FlattenAll(ts[..i]) + Flatten(ts[i])
  {
    assert ts[..i + 1] == ts[..i] + [ts[i]];
    FlattenAppend(ts[..i], [ts[i]]);
    assert FlattenAll([ts[i]]) == Flatten(ts[i]);
  }

  lemma {:induction false} OpenNext(fs: seq<Frame>, t: Tree)
    requires fs != [] && fs[0].right != []
    ensures Before([Open(PlugNode(fs[0], t), |fs[0].left| + 1)] + fs[1..]) == Before(fs) + Flatten(t)
  {
    hide Flatten;
    hide FlattenAll;
    hide Open;
    var n, i := PlugNode(fs[0], t), |fs[0].left|;
    OpenBefore(fs[1..], n, i + 1);
    FlattenNext(n.kids, i);
    assert n.kids[..i] == fs[0].left && n.kids[i] == t;
  }

  lemma {:induction false} OpenPrev(fs: seq<Frame>, t: Tree)
    requires fs != [] && fs[0].left != []
    ensures var n, i := PlugNode(fs[0], t), |fs[0].left| - 1;
            Before([Open(n, i)] + fs[1..]) + Flatten(n.kids[i]) == Before(fs)
  {
    hide Flatten;
    hide FlattenAll;
    hide Open;
    var n, i := PlugNode(fs[0], t), |fs[0].left| - 1;
    OpenBefore(fs[1..], n, i);
    FlattenNext(n.kids, i);
    assert n.kids[..i + 1] == fs[0].left;
  }

  lemma {:induction false} ZipDescended(s: Txn, fs: seq<Frame>, leaf: Tree)
    requires Zip(s, fs, leaf)
    ensures leaf.TLeaf? && Descended(s, Plug(fs, leaf), fs, leaf, 0) && Flatten(leaf) == leaf.ents
  {
    hide Distinct;
    hide Plug;
    hide SoundPath;
    hide StoredPath;
    BagPlug(fs, leaf);
  }

  lemma {:induction false} DescendedTop(s: Txn, tree: Tree, fs: seq<Frame>, t: Tree, h: nat)
    requires Descended(s, tree, fs, t, h)
    ensures s.path == [] <==> fs == []
    ensures fs == [] ==> t == tree && Before(fs) == [] && PathLow(fs) == 0 && PathHigh(fs) == KEY_MAX
    ensures fs != [] ==> s.path[0] == Step(fs[0].no, |fs[0].left|)
    ensures StoreOk(s) && t.no in s.pages && s.pages[t.no] == PageOf(t)
    ensures Flatten(tree) == Before(fs) + Flatten(t) + After(fs)
  {
    hide Distinct;
    hide Sound;
    hide SoundFrame;
    FlattenPlug(fs, t);
    if fs != [] {
      HoldsTail(s, 0, fs, t.no);
    }
  }

  lemma {:induction false} DescendedLeaf(s: Txn, tree: Tree, fs: seq<Frame>, t: Tree, h: nat)
    requires Descended(s, tree, fs, t, h) && t.TLeaf?
    ensures Zip(s, fs, t) && Plug(fs, t) == tree && Flatten(t) == t.ents
  {
    DescendEnd(s, tree, fs, t, h);
  }

  /** move_first below `t`: down the first children. */
  method MoveFirst(s: Txn, from: seq<Step>, top: nat, high: int, ghost tree: Tree, ghost gs: seq<Frame>, ghost t: Tree, ghost h: nat)
    returns (path: seq<Step>, no: nat, kmax: int, ghost fs: seq<Frame>, ghost leaf: Tree)
    requires Descended(s.(path := from), tree, gs, t, h) && top == t.no && high == PathHigh(gs)
    ensures Zip(s.(path := path), fs, leaf) && Plug(fs, leaf) == tree && no == leaf.no
    ensures Before(fs) == Before(gs) && PathLow(fs) == PathLow(gs) && leaf.TLeaf? && kmax == WindowHigh(leaf.ents, 0, PathHigh(fs))
    ensures leaf == FirstLeaf(t)
  {
    hide Descended;
    hide Before;
    hide PathLow;
    hide PathHigh;
    hide Zip;
    hide Plug;
    path, no, kmax := from, top, high;
    fs, leaf := gs, t;
    ghost var d := h;
    DescendedTop(s.(path := path), tree, fs, leaf, d);
    while s.pages[no].Branch?
      invariant Descended(s.(path := path), tree, fs, leaf, d) && no == leaf.no && kmax == PathHigh(fs)
      invariant no in s.pages && s.pages[no] == PageOf(leaf)
      invariant Before(fs) == Before(gs) && PathLow(fs) == PathLow(gs) && FirstLeaf(leaf) == FirstLeaf(t)
      decreases d
    {
      DescendPage(s.(path := path), tree, fs, leaf, d);
      var page := s.pages[no];
      DescendStep(s.(path := path), tree, fs, leaf, d, 0);
      OpenBefore(fs, leaf, 0);
      path, no, kmax := [Step(no, 0)] + path, page.ptrs[0], (page.keys[0] as int) - 1;
      fs, leaf, d := [Open(leaf, 0)] + fs, leaf.kids[0], d - 1;
      DescendedTop(s.(path := path), tree, fs, leaf, d);
    }
    DescendedLeaf(s.(path := path), tree, fs, leaf, d);
    if s.pages[no].ents != [] {
      kmax := s.pages[no].ents[0].key;
    }
  }

  /** move_last below `t`: down the last children. */
  method MoveLast(s: Txn, from: seq<Step>, top: nat, low: int, ghost tree: Tree, ghost gs: seq<Frame>, ghost t: Tree, ghost h: nat)
    returns (path: seq<Step>, no: nat, kmin: int, ghost fs: seq<Frame>, ghost leaf: Tree)
    requires Descended(s.(path := from), tree, gs, t, h) && top == t.no
    ensures Zip(s.(path := path), fs, leaf) && Plug(fs, leaf) == tree && no == leaf.no && leaf == LastLeaf(t) && leaf.TLeaf?
    ensures Before(fs) + leaf.ents == Before(gs) + Flatten(t) && (leaf.ents != [] ==> kmin == leaf.ents[|leaf.ents| - 1].key)
  {
    hide Growth;
    hide After;
    hide StoreOk;
    hide Height;
    hide FindKmax;
    hide Safe;
    hide Flatten;
    hide Low;
    hide High;
    hide Descended;
    hide Before;
    hide PathLow;
    hide PathHigh;
    hide Zip;
    hide Plug;
    path, no, kmin := from, top, low;
    fs, leaf := gs, t;
    ghost var d := h;
    DescendedTop(s.(path := path), tree, fs, leaf, d);
    while s.pages[no].Branch?
      invariant Descended(s.(path := path), tree, fs, leaf, d) && no == leaf.no
      invariant no in s.pages && s.pages[no] == PageOf(leaf)
      invariant Before(fs) + Flatten(leaf) == Before(gs) + Flatten(t) && LastLeaf(leaf) == LastLeaf(t)
      decreases d
    {
      DescendPage(s.(path := path), tree, fs, leaf, d);
      var page := s.pages[no];
      var i := |page.keys|;
      DescendStep(s.(path := path), tree, fs, leaf, d, i);
      LastBefore(fs, leaf);
      path, no, kmin := [Step(no, i)] + path, page.ptrs[i], page.keys[i - 1];
      fs, leaf, d := [Open(leaf, i)] + fs, leaf.kids[i], d - 1;
      DescendedTop(s.(path := path), tree, fs, leaf, d);
    }
    DescendedLeaf(s.(path := path), tree, fs, leaf, d);
    if s.pages[no].ents != [] {
      kmin := s.pages[no].ents[|s.pages[no].ents| - 1].key;
    }
  }

  lemma {:induction false} LastBefore(fs: seq<Frame>, t: Tree)
    requires t.TBranch? && t.kids != []
    ensures var i := |t.kids| - 1; Before([Open(t, i)] + fs) + Flatten(t.kids[i]) == Before(fs) + Flatten(t)
  {
    var i := |t.kids| - 1;
    OpenBefore(fs, t, i);
    var l, k := t.kids[..i], t.kids[i];
    assert t.kids == l + [k];
    FlattenAppend(l, [k]);
    assert FlattenAll([k]) == Flatten(k);
  }

  /** find_kmax for the path of `s`. */
  method UpperKey(s: Txn) returns (k: int)
    requires Safe(s, 0)
    ensures k == FindKmax(s, 0)
  {
    var level := 0;
    while level < |s.path|
      invariant level <= |s.path| && FindKmax(s, level) == FindKmax(s, 0)
    {
      var keys, i := s.pages[s.path[level].no].keys, s.path[level].pindex;
      if i < |keys| {
        return (keys[i] as int) - 1;
      }
      level := level + 1;
    }
    k := KEY_MAX;
  }

  lemma {:induction false} DescendedKmax(s: Txn, tree: Tree, fs: seq<Frame>, t: Tree, h: nat)
    requires Descended(s, tree, fs, t, h)
    ensures Safe(s, 0) && FindKmax(s, 0) == PathHigh(fs) && 0 <= PathLow(fs) <= PathHigh(fs)
  {
    hide Distinct;
    hide Sound;
    hide SoundFrame;
    BagPlug(fs, t);
    DistinctPart(PathBag(fs), Bag(tree) + Loose(s));
    HoldsSafe(s, 0, fs, t.no, h, s.o);
    FindKmaxPath(s, 0, fs, t.no);
    PathRange(fs, h, s.o);
  }

  /** move_right: to the first entry of the next leaf, or of the first leaf after the last. */
  method MoveRight(s: Txn, from: seq<Step>, at: nat, ghost tree: Tree, ghost gs: seq<Frame>, ghost was: Tree)
    returns (path: seq<Step>, no: nat, kmin: int, kmax: int, ghost fs: seq<Frame>, ghost leaf: Tree)
    requires Descended(s.(path := from), tree, gs, was, 0) && at == was.no
    ensures Zip(s.(path := path), fs, leaf) && Plug(fs, leaf) == tree && no == leaf.no && leaf == LeafAfter(gs, tree) && leaf.TLeaf?
    ensures var next := |Before(gs)| + |Flatten(was)|;
            && next <= |Flatten(tree)| && (|Before(fs)| == next || (next == |Flatten(tree)| && |Before(fs)| == 0))
            && (HasEntry(leaf) ==> |Before(fs)| == if next < |Flatten(tree)| then next else 0)
    ensures kmin == PathLow(fs) && kmax == WindowHigh(leaf.ents, 0, PathHigh(fs))
  {
    hide Growth;
    hide After;
    hide StoreOk;
    hide Height;
    hide Descended;
    hide Before;
    hide PathLow;
    hide PathHigh;
    hide Zip;
    hide Plug;
    hide FindKmax;
    hide Safe;
    hide FirstLeaf;
    hide Flatten;
    path, no := from, at;
    ghost var hs, t, h := gs, was, 0;
    DescendedTop(s.(path := path), tree, hs, t, h);
    while path != [] && (AscendPage(s.(path := path), tree, hs, t, h); path[0].pindex == |s.pages[path[0].no].keys|)
      invariant Descended(s.(path := path), tree, hs, t, h) && no == t.no && (path == [] <==> hs == [])
      invariant Before(hs) + Flatten(t) == Before(gs) + Flatten(was) && LeafAfter(hs, tree) == LeafAfter(gs, tree)
      decreases |path|
    {
      AscendStep(s.(path := path), tree, hs, t, h);
      no, path := path[0].no, path[1..];
      hs, t, h := hs[1..], PlugNode(hs[0], t), h + 1;
      DescendedTop(s.(path := path), tree, hs, t, h);
    }
    DescendedTop(s.(path := path), tree, hs, t, h);
    if path == [] {
      kmin, kmax := 0, KEY_MAX;
    } else {
      AscendStep(s.(path := path), tree, hs, t, h);
      var page, i := s.pages[path[0].no], path[0].pindex + 1;
      ghost var n := PlugNode(hs[0], t);
      OpenNext(hs, t);
      DescendStep(s.(path := path[1..]), tree, hs[1..], n, h + 1, i);
      path, no, kmin := [Step(path[0].no, i)] + path[1..], page.ptrs[i], page.keys[i - 1];
      hs, t := [Open(n, i)] + hs[1..], n.kids[i];
      DescendedKmax(s.(path := path), tree, hs, t, h);
      kmax := UpperKey(s.(path := path));
    }
    ghost var before, top := Before(hs), hs == [];
    DescendedTop(s.(path := path), tree, hs, t, h);
    path, no, kmax, fs, leaf := MoveFirst(s, path, no, kmax, tree, hs, t, h);
    LeafWithin(s.(path := path), tree, fs, leaf);
  }

  lemma {:induction false} AscendPage(s: Txn, tree: Tree, fs: seq<Frame>, t: Tree, h: nat)
    requires Descended(s, tree, fs, t, h) && s.path != []
    ensures s.path[0].no in s.pages && s.pages[s.path[0].no].Branch?
  {
    DescendedTop(s, tree, fs, t, h);
    AscendStep(s, tree, fs, t, h);
  }

  lemma {:induction false} LeafWithin(s: Txn, tree: Tree, fs: seq<Frame>, leaf: Tree)
    requires Zip(s, fs, leaf) && Plug(fs, leaf) == tree
    ensures leaf.TLeaf? && |Before(fs)| + |leaf.ents| <= |Flatten(tree)|
  {
    FlattenPlug(fs, leaf);
  }

  /** The upper bound move_left sets: the separator in front of the child it goes to, which is the lower one. */
  function LeftBound(fs: seq<Frame>): int {
    if fs == [] then KEY_MAX
    else if fs[0].left == [] then LeftBound(fs[1..])
    else if 1 < |fs[0].left| <= |fs[0].keys| + 1 then fs[0].keys[|fs[0].left| - 2]
    else 0
  }

  /** move_left: to the last entry of the leaf before, or of the last leaf before the first. */
  method MoveLeft(s: Txn, from: seq<Step>, at: nat, ghost tree: Tree, ghost gs: seq<Frame>, ghost was: Tree)
    returns (path: seq<Step>, no: nat, kmin: int, kmax: int, ghost fs: seq<Frame>, ghost leaf: Tree)
    requires Descended(s.(path := from), tree, gs, was, 0) && at == was.no
    ensures Zip(s.(path := path), fs, leaf) && Plug(fs, leaf) == tree && no == leaf.no && leaf == LeafBefore(gs, tree) && leaf.TLeaf?
    ensures |Before(fs)| + |leaf.ents| == |Before(gs)| || (|Before(gs)| == 0 && |Before(fs)| + |leaf.ents| == |Flatten(tree)|)
    ensures leaf.ents != [] ==> |Before(fs)| + |leaf.ents| == if |Before(gs)| > 0 then |Before(gs)| else |Flatten(tree)|
    ensures (leaf.ents != [] ==> kmin == leaf.ents[|leaf.ents| - 1].key) && kmax == LeftBound(gs) >= 0
  {
    hide Sound;
    hide Low;
    hide High;
    hide Growth;
    hide After;
    hide StoreOk;
    hide Height;
    hide FindKmax;
    hide Descended;
    hide Before;
    hide PathLow;
    hide PathHigh;
    hide Zip;
    hide Plug;
    hide LastLeaf;
    hide Flatten;
    path, no := from, at;
    ghost var hs, t, h := gs, was, 0;
    DescendedTop(s.(path := path), tree, hs, t, h);
    while path != [] && path[0].pindex == 0
      invariant Descended(s.(path := path), tree, hs, t, h) && no == t.no
      invariant Before(hs) == Before(gs) && LeafBefore(hs, tree) == LeafBefore(gs, tree) && LeftBound(hs) == LeftBound(gs)
      decreases |path|
    {
      DescendedTop(s.(path := path), tree, hs, t, h);
      AscendStep(s.(path := path), tree, hs, t, h);
      no, path := path[0].no, path[1..];
      hs, t, h := hs[1..], PlugNode(hs[0], t), h + 1;
    }
    DescendedTop(s.(path := path), tree, hs, t, h);
    kmax := KEY_MAX;
    if path != [] {
      AscendStep(s.(path := path), tree, hs, t, h);
      var page, i := s.pages[path[0].no], path[0].pindex - 1;
      ghost var n := PlugNode(hs[0], t);
      OpenPrev(hs, t);
      DescendPage(s.(path := path[1..]), tree, hs[1..], n, h + 1);
      DescendStep(s.(path := path[1..]), tree, hs[1..], n, h + 1, i);
      path, no := [Step(path[0].no, i)] + path[1..], page.ptrs[i];
      if i > 0 {
        kmax := page.keys[i - 1];
      } else {
        kmax := 0;
      }
      hs, t := [Open(n, i)] + hs[1..], n.kids[i];
    }
    DescendedTop(s.(path := path), tree, hs, t, h);
    path, no, kmin, fs, leaf := MoveLast(s, path, no, 0, tree, hs, t, h);
    LeafWithin(s.(path := path), tree, fs, leaf);
  }

  // ---- a page and an index name one place among all entries

  /** How many entries come before the leaf page `no`. */
  function StartOf(t: Tree, no: nat): nat
    decreases t, 1
  {
    match t
    case TLeaf(_, _, _) => 0
    case TBranch(_, _, _, kids) => StartOfAll(kids, no)
  }

  function StartOfAll(ts: seq<Tree>, no: nat): nat
    decreases ts, 0
  {
    if ts == [] then 0
    else if no in Bag(ts[0]) then StartOf(ts[0], no)
    else |Flatten(ts[0])| + StartOfAll(ts[1..], no)
  }

  /** The leaf page that holds entry number `pos`. */
  function PageAt(t: Tree, pos: nat): nat
    decreases t, 1
  {
    match t
    case TLeaf(no, _, _) => no
    case TBranch(_, _, _, kids) => PageAtAll(kids, pos)
  }

  function PageAtAll(ts: seq<Tree>, pos: nat): nat
    decreases ts, 0
  {
    if ts == [] then 0
    else if pos < |Flatten(ts[0])| then PageAt(ts[0], pos)
    else PageAtAll(ts[1..], pos - |Flatten(ts[0])|)
  }

  lemma {:induction false} StartOfKids(l: seq<Tree>, t: Tree, r: seq<Tree>, no: nat)
    requires no in Bag(t) && no !in BagAll(l)
    ensures StartOfAll(l + [t] + r, no) == |FlattenAll(l)| + StartOf(t, no)
    decreases |l|
  {
    if l == [] {
      assert (l + [t] + r)[0] == t;
    } else {
      assert (l + [t] + r)[1..] == l[1..] + [t] + r;
      StartOfKids(l[1..], t, r, no);
    }
  }

  lemma {:induction false} PageAtKids(l: seq<Tree>, t: Tree, r: seq<Tree>, pos: nat)
    requires pos < |Flatten(t)|
    ensures PageAtAll(l + [t] + r, |FlattenAll(l)| + pos) == PageAt(t, pos)
    decreases |l|
  {
    if l == [] {
      assert (l + [t] + r)[0] == t;
    } else {
      assert (l + [t] + r)[1..] == l[1..] + [t] + r;
      PageAtKids(l[1..], t, r, pos);
    }
  }

  lemma {:induction false} StartOfPlug(fs: seq<Frame>, t: Tree, no: nat)
    requires no in Bag(t) && Distinct(PathBag(fs) + Bag(t))
    ensures StartOf(Plug(fs, t), no) == |Before(fs)| + StartOf(t, no)
    decreases |fs|
  {
    hide Distinct;
    hide PathBag;
    if fs != [] {
      var f, n := fs[0], PlugNode(fs[0], t);
      NodeApart(fs, t, no);
      StartOfKids(f.left, t, f.right, no);
      StartOfPlug(fs[1..], n, no);
    }
  }

  lemma {:induction false} NodeApart(fs: seq<Frame>, t: Tree, no: nat)
    requires fs != [] && no in Bag(t) && Distinct(PathBag(fs) + Bag(t))
    ensures no !in BagAll(fs[0].left) && no in Bag(PlugNode(fs[0], t)) && Distinct(PathBag(fs[1..]) + Bag(PlugNode(fs[0], t)))
  {
    hide Distinct;
    var f := fs[0];
    BagAppend(f.left + [t], f.right);
    BagAppend(f.left, [t]);
    assert BagAll([t]) == Bag(t);
    Regroup(multiset{f.no}, BagAll(f.left), BagAll(f.right), Bag(t), PathBag(fs[1..]));
    DistinctPart(BagAll(f.left) + Bag(t), PathBag(fs) + Bag(t));
    Apart(BagAll(f.left), Bag(t), no);
  }

  lemma {:induction false} Apart(a: multiset<nat>, b: multiset<nat>, no: nat)
    requires Distinct(a + b) && no in b
    ensures no !in a
  {
    assert (a + b)[no] <= 1;
  }

  lemma {:induction false} PageAtPlug(fs: seq<Frame>, t: Tree, pos: nat)
    requires pos < |Flatten(t)|
    ensures PageAt(Plug(fs, t), |Before(fs)| + pos) == PageAt(t, pos)
    decreases |fs|
  {
    if fs != [] {
      var f, n := fs[0], PlugNode(fs[0], t);
      PageAtKids(f.left, t, f.right, pos);
      FlattenAppend(f.left + [t], f.right);
      FlattenAppend(f.left, [t]);
      assert FlattenAll([t]) == Flatten(t);
      PageAtPlug(fs[1..], n, |FlattenAll(f.left)| + pos);
    }
  }

  lemma {:induction false} PageAtIn(t: Tree, pos: nat)
    requires pos < |Flatten(t)|
    ensures PageAt(t, pos) in Bag(t)
    decreases t, 1
  {
    if t.TBranch? {
      PageAtAllIn(t.kids, pos);
    }
  }

  lemma {:induction false} PageAtAllIn(ts: seq<Tree>, pos: nat)
    requires pos < |FlattenAll(ts)|
    ensures PageAtAll(ts, pos) in BagAll(ts)
    decreases ts, 0
  {
    if pos < |Flatten(ts[0])| {
      PageAtIn(ts[0], pos);
    } else {
      PageAtAllIn(ts[1..], pos - |Flatten(ts[0])|);
    }
  }

  /** Entries beside a child are on other pages than its own. */
  lemma {:induction false} PageAtBeside(l: seq<Tree>, t: Tree, r: seq<Tree>, pos: nat)
    requires pos < |FlattenAll(l)| || |FlattenAll(l)| + |Flatten(t)| <= pos < |FlattenAll(l + [t] + r)|
    ensures PageAtAll(l + [t] + r, pos) in BagAll(l) + BagAll(r)
    decreases |l|
  {
    if l == [] {
      assert l + [t] + r == [t] + r && ([t] + r)[1..] == r;
      PageAtAllIn(r, pos - |Flatten(t)|);
    } else {
      assert (l + [t] + r)[1..] == l[1..] + [t] + r;
      if pos < |Flatten(l[0])| {
        PageAtIn(l[0], pos);
      } else {
        PageAtBeside(l[1..], t, r, pos - |Flatten(l[0])|);
      }
    }
  }

  lemma {:induction false} PageAtSide(fs: seq<Frame>, t: Tree, pos: nat)
    requires pos < |Before(fs)| || |Before(fs)| + |Flatten(t)| <= pos < |Flatten(Plug(fs, t))|
    ensures PageAt(Plug(fs, t), pos) in PathBag(fs)
    decreases |fs|
  {
    hide Flatten;
    hide FlattenAll;
    hide PageAt;
    hide Plug;
    hide Before;
    hide PathBag;
    hide FrameBag;
    hide PlugNode;
    NoFrames(t);
    if fs != [] {
      var f, n, rest := fs[0], PlugNode(fs[0], t), fs[1..];
      OneFrame(fs, t);
      FlattenNode(f, t);
      FlattenPlug(rest, n);
      if |Before(rest)| <= pos < |Before(rest)| + |Flatten(n)| {
        PageAtPlug(rest, n, pos - |Before(rest)|);
        PageAtNode(f, t, pos - |Before(rest)|);
      } else {
        PageAtSide(rest, n, pos);
      }
    }
  }

  lemma {:induction false} NoFrames(t: Tree)
    ensures Plug([], t) == t && Before([]) == []
  {
  }

  lemma {:induction false} OneFrame(fs: seq<Frame>, t: Tree)
    requires fs != []
    ensures Plug(fs, t) == Plug(fs[1..], PlugNode(fs[0], t)) && Before(fs) == Before(fs[1..]) + FlattenAll(fs[0].left)
    ensures PathBag(fs) == FrameBag(fs[0]) + PathBag(fs[1..])
  {
  }

  lemma {:induction false} PageAtNode(f: Frame, t: Tree, pos: nat)
    requires pos < |FlattenAll(f.left)| || |FlattenAll(f.left)| + |Flatten(t)| <= pos < |Flatten(PlugNode(f, t))|
    ensures PageAt(PlugNode(f, t), pos) in FrameBag(f)
  {
    hide FlattenAll;
    hide PageAtAll;
    hide BagAll;
    PageAtBeside(f.left, t, f.right, pos);
  }

  /** No entry is on the page of a leaf without entries. */
  lemma {:induction false} EmptyPage(s: Txn, fs: seq<Frame>, leaf: Tree, pos: nat)
    requires Zip(s, fs, leaf) && leaf.TLeaf? && leaf.ents == [] && pos < |Flatten(Plug(fs, leaf))|
    ensures PageAt(Plug(fs, leaf), pos) != leaf.no
  {
    hide Distinct;
    hide SoundPath;
    hide StoredPath;
    hide Plug;
    hide Before;
    FlattenPlug(fs, leaf);
    PageAtSide(fs, leaf, pos);
    DistinctPart(PathBag(fs) + Bag(leaf), PathBag(fs) + multiset{leaf.no} + Loose(s));
    OnceOnly(PathBag(fs), leaf.no);
  }

  lemma {:induction false} OnceOnly(m: multiset<nat>, p: nat)
    requires Distinct(m + multiset{p})
    ensures p !in m
  {
    assert (m + multiset{p})[p] <= 1;
  }

  lemma {:induction false} ZipStart(s: Txn, fs: seq<Frame>, leaf: Tree, i: nat)
    requires Zip(s, fs, leaf) && leaf.TLeaf? && i < |leaf.ents|
    ensures StartOf(Plug(fs, leaf), leaf.no) == |Before(fs)| && PageAt(Plug(fs, leaf), |Before(fs)| + i) == leaf.no
  {
    hide Distinct;
    hide SoundPath;
    hide StoredPath;
    hide Plug;
    hide Before;
    DistinctPart(PathBag(fs) + Bag(leaf), PathBag(fs) + multiset{leaf.no} + Loose(s));
    StartOfPlug(fs, leaf, leaf.no);
    PageAtPlug(fs, leaf, i);
  }
}
