/** The tree of a transaction seen whole, and walking down into it (lib/bpt.c ed_bpt_find, move_first). */
module BptWhole {
  import opened BptTree
  import opened BptGrow
  import opened BptLeaf
  import opened BptStore
  import opened BptInsert
  import opened BptInsertFrames
  import opened BptSet
  import opened BptPut
  import opened BptPutSplit
  import opened BptOrder

  function Height(t: Tree): nat {
    if t.TBranch? && t.kids != [] then 1 + Height(t.kids[0]) else 0
  }

  lemma {:induction false} SoundHeight(t: Tree, h: nat, lo: int, hi: int, o: Orders)
    requires Sound(t, h, lo, hi, o)
    ensures h == Height(t)
    decreases t
  {
    if t.TBranch? {
      SoundHeight(t.kids[0], h - 1, Low(t.keys, lo, 0), High(t.keys, hi, 0), o);
    }
  }

  /** The pages of one whole tree, and those of no tree, each once. */
  function Pages(s: Txn, tree: Option<Tree>): multiset<nat> {
    (if tree.Some? then Bag(tree.value) else multiset{}) + Loose(s)
  }

  function Entries(tree: Option<Tree>): seq<Entry> {
    if tree.Some? then Flatten(tree.value) else []
  }

  /** The transaction's root is the root of a sound stored tree. */
  ghost predicate Rooted(s: Txn, tree: Option<Tree>) {
    && StoreOk(s) && Distinct(Pages(s, tree))
    && (match tree
        case None => s.root == None
        case Some(t) =>
          && s.root == Some(t.no) && Stored(s.pages, t)
          && Sound(t, Height(t), 0, KEY_MAX, s.o))
  }

  lemma {:induction false} RootedSorted(s: Txn, tree: Option<Tree>)
    requires Rooted(s, tree)
    ensures SortedEntries(Entries(tree)) && Within(Entries(tree), 0, KEY_MAX)
  {
    if tree.Some? {
      TreeSorted(tree.value, Height(tree.value), 0, KEY_MAX, s.o);
    }
  }

  /** Part of the way down: `t` at the end of the frames `fs`. */
  ghost predicate Descended(s: Txn, tree: Tree, fs: seq<Frame>, t: Tree, h: nat) {
    && StoreOk(s) && Holds(s, 0, fs, t.no) && Stored(s.pages, t)
    && SoundPath(fs, h, s.o) && Sound(t, h, PathLow(fs), PathHigh(fs), s.o)
    && Plug(fs, t) == tree && s.root == Some(tree.no) && Distinct(Bag(tree) + Loose(s))
  }

  lemma {:induction false} DescendStart(s: Txn, tree: Tree)
    requires Rooted(s, Some(tree))
    ensures Descended(s.(path := []), tree, [], tree, Height(tree))
  {
  }

  lemma {:induction false} DescendPage(s: Txn, tree: Tree, fs: seq<Frame>, t: Tree, h: nat)
    requires Descended(s, tree, fs, t, h)
    ensures t.no in s.pages && s.pages[t.no] == PageOf(t)
    ensures t.TBranch? ==> |t.kids| == |t.keys| + 1 && t.keys != [] && h > 0 && Separators(t.keys, PathLow(fs), PathHigh(fs))
  {
  }

  /** One step down, to child `i`. */
  lemma {:induction false} DescendStep(s: Txn, tree: Tree, fs: seq<Frame>, t: Tree, h: nat, i: nat)
    requires Descended(s, tree, fs, t, h) && t.TBranch? && i < |t.kids|
    ensures h > 0
    ensures Descended(s.(path := [Step(t.no, i)] + s.path), tree, [Open(t, i)] + fs, t.kids[i], h - 1)
    ensures PathLow([Open(t, i)] + fs) == Low(t.keys, PathLow(fs), i)
    ensures PathHigh([Open(t, i)] + fs) == High(t.keys, PathHigh(fs), i)
    ensures forall o | o == s.o :: Growth([Open(t, i)] + fs, o) == if |t.keys| == o.branch - 1 then 1 + Growth(fs, o) else 0
  {
    hide Distinct;
    hide Sound;
    hide SoundPath;
    hide StoredPath;
    hide Plug;
    OpenSound(fs, t, i, h, s.o);
    OpenStored(s.pages, fs, t, i);
    OpenPlug(fs, t, i);
    OpenHolds(s, fs, t, i);
    assert ([Open(t, i)] + fs)[1..] == fs;
  }

  lemma {:induction false} OpenHolds(s: Txn, fs: seq<Frame>, t: Tree, i: nat)
    requires t.TBranch? && i < |t.kids| && Holds(s, 0, fs, t.no)
    requires StoredPath(s.pages, [Open(t, i)] + fs, t.kids[i].no)
    ensures Holds(s.(path := [Step(t.no, i)] + s.path), 0, [Open(t, i)] + fs, t.kids[i].no)
  {
    hide StoredPath;
    var gs, p := [Open(t, i)] + fs, [Step(t.no, i)] + s.path;
    forall j | 0 <= j < |gs| ensures p[0 + j] == Step(gs[j].no, |gs[j].left|) {
      if j > 0 {
        assert s.path[0 + (j - 1)] == Step(fs[j - 1].no, |fs[j - 1].left|);
      }
    }
  }

  lemma {:induction false} HoldsSafe(s: Txn, level: nat, fs: seq<Frame>, hole: nat, h: nat, o: Orders)
    requires Holds(s, level, fs, hole) && Distinct(PathBag(fs)) && SoundPath(fs, h, o)
    ensures Safe(s, level)
    decreases |fs|
  {
    hide Sound;
    hide SoundSide;
    hide Distinct;
    hide PathBag;
    hide Holds;
    if fs == [] {
      NoSteps(s, level, hole);
    } else {
      HoldsTail(s, level, fs, hole);
      HoldsPage(s, level, fs, hole);
      HeadApart(s, level, fs, hole);
      HoldsSafe(s, level + 1, fs[1..], fs[0].no, h + 1, o);
    }
  }

  lemma {:induction false} NoSteps(s: Txn, level: nat, hole: nat)
    requires Holds(s, level, [], hole)
    ensures |s.path| == level
  {
  }

  lemma {:induction false} HeadApart(s: Txn, level: nat, fs: seq<Frame>, hole: nat)
    requires Holds(s, level, fs, hole) && Distinct(PathBag(fs)) && fs != []
    ensures Distinct(PathBag(fs[1..]))
    ensures forall i | level + 1 <= i < |s.path| :: s.path[i].no != fs[0].no
  {
    hide Distinct;
    hide StoredPath;
    HoldsTail(s, level, fs, hole);
    HoldsBag(s, level + 1, fs[1..], fs[0].no);
    DistinctPart(PathBag(fs[1..]), PathBag(fs));
    HeadBag(multiset{fs[0].no}, BagAll(fs[0].left), BagAll(fs[0].right), StepsBag(s.path[level + 1..]), KidsBag(fs[1..]));
    DistinctPart(multiset{fs[0].no} + StepsBag(s.path[level + 1..]), PathBag(fs));
    OtherSteps(s, level + 1, fs[0].no);
  }

  lemma {:induction false} HeadBag(n: multiset<nat>, l: multiset<nat>, r: multiset<nat>, a: multiset<nat>, b: multiset<nat>)
    ensures n + a <= (n + l + r) + (a + b)
  {
  }

  lemma {:induction false} OtherSteps(s: Txn, level: nat, no: nat)
    requires level <= |s.path| && Distinct(multiset{no} + StepsBag(s.path[level..]))
    ensures forall i | level <= i < |s.path| :: s.path[i].no != no
  {
    DistinctPart(StepsBag(s.path[level..]) + multiset{no}, multiset{no} + StepsBag(s.path[level..]));
    ClearByBag(s, level, multiset{no});
    forall i | level <= i < |s.path| ensures s.path[i].no != no {
      assert s.path[i].no in PathNos(s, level);
    }
  }

  lemma {:induction false} DescendEnd(s: Txn, tree: Tree, fs: seq<Frame>, t: Tree, h: nat)
    requires Descended(s, tree, fs, t, h) && t.TLeaf?
    ensures Zip(s, fs, t)
  {
    hide Distinct;
    hide Plug;
    hide StoredPath;
    hide SoundFrame;
    BagPlug(fs, t);
    DistinctPart(PathBag(fs), Bag(tree) + Loose(s));
    HoldsSafe(s, 0, fs, t.no, h, s.o);
  }

  /** A cursor's path and leaf make one whole tree. */
  lemma {:induction false} ZipRooted(s: Txn, fs: seq<Frame>, leaf: Tree)
    requires Zip(s, fs, leaf)
    ensures Rooted(s, Some(Plug(fs, leaf))) && Height(Plug(fs, leaf)) == |fs|
    ensures Flatten(Plug(fs, leaf)) == Before(fs) + leaf.ents + After(fs)
    ensures Bag(Plug(fs, leaf)) == PathBag(fs) + multiset{leaf.no}
  {
    hide Distinct;
    hide Plug;
    hide StoredPath;
    hide SoundFrame;
    BagPlug(fs, leaf);
    FlattenPlug(fs, leaf);
    SoundPlug(fs, leaf, 0, s.o);
    SoundHeight(Plug(fs, leaf), |fs|, 0, KEY_MAX, s.o);
    StoredPlug(s.pages, fs, leaf);
  }
}
