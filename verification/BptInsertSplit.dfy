/** The branch-splitting case of insert_into_parent, and the result of the whole recursion. */
module BptInsertSplit {
  import opened BptTree
  import opened BptGrow
  import opened BptSplit
  import opened BptStore
  import opened BptInsert
  import opened BptInsertFrames

  /** Cutting the page of a frame gives the pages of its two halves. */
  lemma {:induction false} CutPages(f: Frame, hole: nat, a: nat, b: nat, xid: nat)
    requires Halvable(f)
    ensures var m, part := Middle(f.keys), Part(f, a, b, xid);
            var ptrs := Nos(f.left) + [hole] + Nos(f.right);
            && (InLeft(f) ==>
                  && Branch(xid, f.keys[..m - 1], ptrs[..m]) == Branch(xid, part.keys, Nos(part.left) + [hole] + Nos(part.right))
                  && Branch(xid, f.keys[m..], ptrs[m..]) == PageOf(Rest(f, a, b, xid)))
            && (!InLeft(f) ==>
                  && Branch(xid, f.keys[m..], ptrs[m..]) == Branch(xid, part.keys, Nos(part.left) + [hole] + Nos(part.right))
                  && Branch(xid, f.keys[..m - 1], ptrs[..m]) == PageOf(Rest(f, a, b, xid)))
  {
    var m, part, ptrs := Middle(f.keys), Part(f, a, b, xid), Nos(f.left) + [hole] + Nos(f.right);
    if InLeft(f) {
      assert ptrs[..m] == Nos(part.left) + [hole] + Nos(part.right);
    } else {
      assert ptrs[m..] == Nos(part.left) + [hole] + Nos(part.right);
    }
  }

  /** What CutBranch leaves, in terms of the halves of the frame. */
  ghost predicate Cut(s: Txn, c: Halves, f: Frame, hole: nat)
  {
    && Halvable(f)
    && var part := Part(f, c.left, c.right, s.xid);
    && c.left != c.right && c.half == (if InLeft(f) then c.left else c.right)
    && c.idx == |part.left| && |part.keys| == |part.left| + |part.right|
    && c.half in c.s.pages
    && c.s.pages[c.half] == Gap(Branch(s.xid, part.keys, Nos(part.left) + [hole] + Nos(part.right)), |part.left|)
    && var rest := Rest(f, c.left, c.right, s.xid);
    && rest.no in c.s.pages && c.s.pages[rest.no] == PageOf(rest)
    && multiset{c.left} + multiset{c.right} + Loose(c.s) == multiset{f.no} + Loose(s)
  }

  lemma {:induction false} LooseBags(l: multiset<nat>, r: multiset<nat>, n: multiset<nat>,
                                     x: multiset<nat>, y: multiset<nat>, z: multiset<nat>)
    requires l + x == n + y && r + y == z
    ensures l + r + x == n + z
  {
    assert l + r + x == (l + x) + r;
  }

  lemma {:induction false} CutLoose(s: Txn, level: nat)
    requires CanCut(s, level)
    ensures var no := s.path[level].no;
            var (t, left) := CutLeft(CutRight(s, level), no, Middle(s.pages[no].keys));
            multiset{left} + multiset{s.supply[0]} + Loose(t) == multiset{no} + Loose(s)
  {
    var no, r := s.path[level].no, CutRight(s, level);
    OwnedLoose(r, no);
    var (t, left) := CutLeft(r, no, Middle(s.pages[no].keys));
    assert s.supply == [s.supply[0]] + s.supply[1..];
    LooseBags(multiset{left}, multiset{s.supply[0]}, multiset{no}, Loose(t), Loose(r), Loose(s));
  }

  lemma {:induction false} CutFacts(s: Txn, level: nat, key: nat, f: Frame, hole: nat)
    requires CanCut(s, level) && Agrees(s, level, key)
    requires s.path[level] == Step(f.no, |f.left|) && Halvable(f)
    requires s.pages[f.no] == Branch(f.xid, f.keys, Nos(f.left) + [hole] + Nos(f.right))
    ensures Cut(s, CutBranch(s, level, key), f, hole)
  {
    hide Kept;
    hide Nos;
    hide Gap;
    var c := CutBranch(s, level, key);
    CutLoose(s, level);
    CutBranchKept(s, level, key);
    CutPages(f, hole, c.left, c.right, s.xid);
    assert s.supply[0] in s.supply;
  }

  /** A full branch of a stored path can be cut in halves. */
  lemma {:induction false} FullHead(s: Txn, level: nat, l: nat, r: nat, key: nat, fs: seq<Frame>, hole: nat, h: nat)
    requires Insertable(s, level, l, r, key, fs, hole, h) && fs != []
    ensures level < |s.path| && s.path[level] == Step(fs[0].no, |fs[0].left|)
    ensures fs[0].no in s.pages
    ensures s.pages[fs[0].no] == Branch(fs[0].xid, fs[0].keys, Nos(fs[0].left) + [hole] + Nos(fs[0].right))
    ensures FullAt(s, level) <==> FullFrame(fs[0], s.o)
    ensures Halvable(fs[0])
    ensures PathLow(fs[1..]) < Pivot(fs[0].keys) <= PathHigh(fs[1..])
    ensures Holds(s, level + 1, fs[1..], fs[0].no) && SoundPath(fs[1..], h + 1, s.o)
  {
    hide Sound;
    hide Distinct;
    HoldsTail(s, level, fs, hole);
  }

  lemma {:induction false} PartBags(f: multiset<nat>, n: multiset<nat>, a: multiset<nat>, b: multiset<nat>,
                                    tail: multiset<nat>, y: multiset<nat>, z: multiset<nat>)
    requires n <= f && a + b + y == n + z
    ensures tail + y <= f + tail + z
  {
    forall p ensures (tail + y)[p] <= (f + tail + z)[p] {
      assert (a + b + y)[p] == (n + z)[p];
      assert n[p] <= f[p];
    }
  }

  /** The halves, as a pair to be taken in one level up. */
  lemma {:induction false} SplitInsertable(s: Txn, level: nat, l: nat, r: nat, key: nat, fs: seq<Frame>, hole: nat, h: nat)
    requires Insertable(s, level, l, r, key, fs, hole, h) && fs != []
    requires CanCut(s, level) && Agrees(s, level, key)
    ensures var c := CutBranch(s, level, key);
            && Cut(s, c, fs[0], hole) && c.s.path == s.path
            && Pivot(fs[0].keys) >= 0
            && Insertable(c.s, level + 1, c.left, c.right, Pivot(fs[0].keys), fs[1..], fs[0].no, h + 1)
            && Kept(s, c.s, {fs[0].no})
  {
    hide Sound;
    hide CutBranch;
    hide StoredPath;
    hide SoundPath;
    var f, rest := fs[0], fs[1..];
    FullHead(s, level, l, r, key, fs, hole, h);
    CutFacts(s, level, key, f, hole);
    CutBranchKept(s, level, key);
    CutBranchHalf(s, level, key);
    var c := CutBranch(s, level, key);
    NoKids(s, level, fs, hole);
    CutUpper(s, c.s, level, fs, hole);
    PartBags(FrameBag(f), multiset{f.no}, multiset{c.left}, multiset{c.right}, PathBag(rest), Loose(c.s), Loose(s));
    DistinctPart(PathBag(rest) + Loose(c.s), PathBag(fs) + Loose(s));
  }

  lemma {:induction false} NoKids(s: Txn, level: nat, fs: seq<Frame>, hole: nat)
    requires fs != [] && Holds(s, level, fs, hole) && Distinct(PathBag(fs) + Loose(s))
    ensures fs[0].no !in KidsBag(fs[1..])
  {
    HoldsTail(s, level, fs, hole);
    HoldsBag(s, level + 1, fs[1..], fs[0].no);
    assert (PathBag(fs) + Loose(s))[fs[0].no] <= 1;
  }

  lemma {:induction false} CutUpper(s: Txn, t: Txn, level: nat, fs: seq<Frame>, hole: nat)
    requires fs != [] && Holds(s, level, fs, hole) && Safe(s, level) && t.path == s.path
    requires Confined(s.pages, t.pages, {fs[0].no}) && fs[0].no !in KidsBag(fs[1..])
    ensures Holds(t, level + 1, fs[1..], fs[0].no)
  {
    HoldsTail(s, level, fs, hole);
    assert t.path == s.path[level := Step(fs[0].no, |fs[0].left|)];
    UpperHolds(s, t, level, fs, hole, fs[0].no);
  }

  /** The other half stays stored while the ancestors take it in. */
  lemma {:induction false} RestStored(s: Txn, t: Txn, level: nat, c: Halves, f: Frame, rest: seq<Frame>, hole: nat)
    requires Holds(s, level, [f] + rest, hole) && Distinct(PathBag([f] + rest) + Loose(s))
    requires Cut(s, c, f, hole) && Confined(s.pages, t.pages, PathNos(s, level))
    requires var no := Rest(f, c.left, c.right, s.xid).no; no in t.pages && t.pages[no] == c.s.pages[no]
    ensures Stored(t.pages, Rest(f, c.left, c.right, s.xid))
    ensures StoredAll(t.pages, f.left) && StoredAll(t.pages, f.right)
  {
    KidsStored(s, t, level, f, rest, hole);
  }

  lemma {:induction false} HalfOffPath(s: Txn, level: nat, key: nat)
    requires CanCut(s, level) && Agrees(s, level, key)
    ensures var c := CutBranch(s, level, key); c.left !in PathNos(s, level + 1) && c.right !in PathNos(s, level + 1)
  {
    CutBranchKept(s, level, key);
    assert s.path[level].no !in PathNos(s, level + 1);
    forall p | p in PathNos(s, level + 1) ensures p in s.pages {
      var i :| level + 1 <= i < |s.path| && s.path[i].no == p;
      assert BranchAt(s.pages, s.path[i].no, s.path[i].pindex);
    }
  }

  /** The path after the halves went in, seen from the half with the hole. */
  lemma {:induction false} RejoinHolds(s: Txn, t: Txn, level: nat, c: Halves, f: Frame, hole: nat, pf: Frame, ups: seq<Frame>)
    requires Cut(s, c, f, hole) && Placed(c.s, t, level + 1, c.left, c.right, pf, ups)
    requires Stored(t.pages, Rest(f, c.left, c.right, s.xid))
    ensures level + 1 < |t.path|
    ensures Holds(Rejoin(t, level, c), level + 1, [Up(pf, f, c.left, c.right, s.xid)] + ups, c.half)
  {
    hide Sound;
    var up, rest := Up(pf, f, c.left, c.right, s.xid), Rest(f, c.left, c.right, s.xid);
    var gs, u := [up] + ups, Rejoin(t, level, c);
    HoleStored(t.pages, pf, ups, c.left, c.right, rest);
    forall i | 0 <= i < |gs| ensures u.path[level + 1 + i] == Step(gs[i].no, |gs[i].left|) {
      if i > 0 {
        assert t.path[level + 2 + (i - 1)] == Step(ups[i - 1].no, |ups[i - 1].left|);
      }
    }
  }

  /** Conservation across the cut and the level above. */
  lemma {:induction false} SplitLoose(s: Txn, t: Txn, level: nat, c: Halves, fs: seq<Frame>, hole: nat, pf: Frame, ups: seq<Frame>)
    requires fs != [] && Cut(s, c, fs[0], hole)
    requires FrameBag(pf) + PathBag(ups) + Loose(t) == PathBag(fs[1..]) + Loose(c.s)
    ensures var part := Part(fs[0], c.left, c.right, s.xid);
            FrameBag(part) + PathBag([Up(pf, fs[0], c.left, c.right, s.xid)] + ups) + Loose(t) == PathBag(fs) + Loose(s)
  {
    hide Part;
    hide Rest;
    hide FrameBag;
    var f := fs[0];
    SplitBag(f, c.left, c.right, s.xid, pf, ups);
    SplitBags(FrameBag(Part(f, c.left, c.right, s.xid)), Bag(Rest(f, c.left, c.right, s.xid)), multiset{f.no}, FrameBag(f),
              multiset{c.left}, multiset{c.right}, FrameBag(pf), PathBag(ups), PathBag(fs[1..]),
              Loose(t), Loose(c.s), Loose(s));
  }

  lemma {:induction false} HalfBags(no: nat, l: multiset<nat>, r: multiset<nat>, steps: multiset<nat>, kids: multiset<nat>, x: multiset<nat>)
    requires Distinct(multiset{no} + l + r + (steps + kids) + x)
    ensures Distinct(multiset{no} + steps + kids)
  {
    DistinctPart(multiset{no} + steps + kids, multiset{no} + l + r + (steps + kids) + x);
  }

  lemma {:induction false} RejoinClear(u: Txn, level: nat, part: Frame, gs: seq<Frame>, x: multiset<nat>)
    requires level < |u.path| && u.path[level].no == part.no && Holds(u, level + 1, gs, part.no)
    requires Distinct(FrameBag(part) + PathBag(gs) + x)
    ensures Clear(u, level, gs)
  {
    hide Distinct;
    HoldsBag(u, level + 1, gs, part.no);
    StepsBagCons(u.path, level);
    HalfBags(part.no, BagAll(part.left), BagAll(part.right), StepsBag(u.path[level + 1..]), KidsBag(gs), x);
    ClearByBag(u, level, KidsBag(gs));
  }

  /** The state before the pair is written into its half. */
  ghost predicate Ready(s: Txn, u: Txn, level: nat, l: nat, r: nat, hole: nat, part: Frame, gs: seq<Frame>) {
    && PairReady(u, level) && u.xid == s.xid
    && u.path[level] == Step(part.no, |part.left|) && part.xid == s.xid
    && |part.keys| == |part.left| + |part.right|
    && u.pages[part.no] == Gap(Branch(s.xid, part.keys, Nos(part.left) + [hole] + Nos(part.right)), |part.left|)
    && StoredAll(u.pages, part.left) && StoredAll(u.pages, part.right)
    && Holds(u, level + 1, gs, part.no) && (forall f | f in gs :: f.xid == s.xid)
    && l in u.pages && u.pages[l].xid == s.xid && r in u.pages && u.pages[r].xid == s.xid
  }

  lemma {:induction false} FilledStored(pages: map<nat, Page>, part: Frame, hole: nat, l: nat, r: nat, key: nat, xid: nat)
    requires |part.keys| == |part.left| + |part.right| && part.xid == xid
    requires StoredAll(pages, part.left) && StoredAll(pages, part.right)
    requires var g := Gap(Branch(xid, part.keys, Nos(part.left) + [hole] + Nos(part.right)), |part.left|);
             && part.no in pages
             && pages[part.no] == Branch(xid, g.keys[|part.left| := key], g.ptrs[|part.left| := l][|part.left| + 1 := r])
    ensures StoredPair(pages, Widened(part, key), l, r)
  {
    var page := Branch(xid, part.keys, Nos(part.left) + [hole] + Nos(part.right));
    GapFilled(page, |part.left|, l, r, key);
    assert page.ptrs[..|part.left|] == Nos(part.left) && page.ptrs[|part.left| + 1..] == Nos(part.right);
  }

  lemma {:induction false} PartKidsKept(u: Txn, t: Txn, level: nat, part: Frame, gs: seq<Frame>, x: multiset<nat>)
    requires level < |u.path| && u.path[level].no == part.no && Holds(u, level + 1, gs, part.no)
    requires Distinct(FrameBag(part) + PathBag(gs) + x)
    requires Confined(u.pages, t.pages, PathNos(u, level))
    requires StoredAll(u.pages, part.left) && StoredAll(u.pages, part.right)
    ensures StoredAll(t.pages, part.left) && StoredAll(t.pages, part.right)
  {
    var kids := BagAll(part.left) + BagAll(part.right);
    HoldsBag(u, level + 1, gs, part.no);
    StepsBagCons(u.path, level);
    assert FrameBag(part) + PathBag(gs) + x == multiset{part.no} + StepsBag(u.path[level + 1..]) + kids + (KidsBag(gs) + x);
    DistinctPart(StepsBag(u.path[level..]) + kids, FrameBag(part) + PathBag(gs) + x);
    ClearByBag(u, level, kids);
    StoredAllKept(u.pages, t.pages, part.left);
    StoredAllKept(u.pages, t.pages, part.right);
  }

  lemma {:induction false} ReadyPlaced(s: Txn, u: Txn, level: nat, l: nat, r: nat, key: nat, hole: nat,
                                       part: Frame, gs: seq<Frame>, x: multiset<nat>)
    requires Ready(s, u, level, l, r, hole, part, gs)
    requires Distinct(FrameBag(part) + PathBag(gs) + x)
    requires !SetPair(u, level, l, r, key).failed
    ensures Placed(s, SetPair(u, level, l, r, key), level, l, r, Widened(part, key), gs)
  {
    hide SetPair;
    hide Distinct;
    hide Copied;
    hide Holds;
    hide Paired;
    hide Placed;
    RejoinClear(u, level, part, gs, x);
    var t := SetPair(u, level, l, r, key);
    var hs := SetPairFrames(u, level, l, r, key, gs, part.no);
    PairedPage(u, t, level, l, r, key, gs, hs);
    CopiedOwned(gs, hs, s.xid);
    SetPairClimbed(u, level, l, r, key);
    PartKidsKept(u, t, level, part, gs, x);
    FilledStored(t.pages, part, hole, l, r, key, s.xid);
    PlacedBy(s, u, t, level, l, r, key, gs, Widened(part, key), gs);
  }

  lemma {:induction false} ReadyLoose(s: Txn, u: Txn, level: nat, l: nat, r: nat, key: nat, hole: nat, part: Frame, gs: seq<Frame>)
    requires Ready(s, u, level, l, r, hole, part, gs)
    requires Placed(s, SetPair(u, level, l, r, key), level, l, r, Widened(part, key), gs)
    ensures Loose(SetPair(u, level, l, r, key)) == Loose(u)
  {
    hide SetPair;
    hide StoredPath;
    hide StoredAll;
    var t := SetPair(u, level, l, r, key);
    SetPairBag(u, level, l, r, key);
    forall i | level <= i < |t.path| ensures t.path[i] == u.path[i] {
      if i > level {
        var g := gs[i - level - 1];
        assert t.path[level + 1 + (i - level - 1)] == Step(g.no, |g.left|);
        assert u.path[level + 1 + (i - level - 1)] == Step(g.no, |g.left|);
      }
    }
    assert t.path[level..] == u.path[level..];
    Cancel(StepsBag(u.path[level..]), Loose(t), Loose(u));
  }

  /** Both halves stay as cut while the ancestors take them in. */
  lemma {:induction false} SplitStored(s: Txn, level: nat, l: nat, r: nat, key: nat, fs: seq<Frame>, hole: nat, h: nat, t: Txn)
    requires Insertable(s, level, l, r, key, fs, hole, h) && fs != []
    requires CanCut(s, level) && Agrees(s, level, key)
    requires Took(CutBranch(s, level, key).s, (t, true), level + 1)
    ensures var c, f := CutBranch(s, level, key), fs[0];
            && Cut(s, c, f, hole)
            && Stored(t.pages, Rest(f, c.left, c.right, s.xid))
            && StoredAll(t.pages, Part(f, c.left, c.right, s.xid).left)
            && StoredAll(t.pages, Part(f, c.left, c.right, s.xid).right)
            && c.half in t.pages && t.pages[c.half] == c.s.pages[c.half]
            && l in t.pages && t.pages[l].xid == s.xid && r in t.pages && t.pages[r].xid == s.xid
            && t.xid == s.xid
  {
    hide CutBranch;
    hide SoundPath;
    hide Distinct;
    hide Grown;
    hide Agrees;
    hide StoredPath;
    hide Safe;
    hide StoredAll;
    hide Part;
    var f, c := fs[0], CutBranch(s, level, key);
    SplitCut(s, level, l, r, key, fs, hole, h);
    assert [f] + fs[1..] == fs;
    SplitConfined(s, c.s, t, level, f.no);
    assert PathNos(c.s, level + 1) == PathNos(s, level + 1);
    RestNo(s, c, f, hole);
    RestStored(s, t, level, c, f, fs[1..], hole);
    PartKids(f, t.pages, c.left, c.right, s.xid);
  }

  lemma {:induction false} SplitCut(s: Txn, level: nat, l: nat, r: nat, key: nat, fs: seq<Frame>, hole: nat, h: nat)
    requires Insertable(s, level, l, r, key, fs, hole, h) && fs != []
    requires CanCut(s, level) && Agrees(s, level, key)
    ensures var c := CutBranch(s, level, key);
            && Cut(s, c, fs[0], hole) && c.s.path == s.path && Kept(s, c.s, {fs[0].no})
            && c.left in c.s.pages && c.right in c.s.pages
            && c.left !in PathNos(s, level + 1) && c.right !in PathNos(s, level + 1)
    ensures level < |s.path| && s.path[level].no == fs[0].no
  {
    hide CutBranch;
    hide SoundPath;
    hide Distinct;
    FullHead(s, level, l, r, key, fs, hole, h);
    CutFacts(s, level, key, fs[0], hole);
    CutBranchKept(s, level, key);
    HalfOffPath(s, level, key);
  }

  lemma {:induction false} RestNo(s: Txn, c: Halves, f: Frame, hole: nat)
    requires Cut(s, c, f, hole)
    ensures Rest(f, c.left, c.right, s.xid).no in {c.left, c.right} && c.half in {c.left, c.right}
    ensures Part(f, c.left, c.right, s.xid).no == c.half && Part(f, c.left, c.right, s.xid).xid == s.xid
  {
  }

  /** Everything SetPair needs after the level above has taken in both halves. */
  lemma {:induction false} SplitReady(s: Txn, level: nat, l: nat, r: nat, key: nat, fs: seq<Frame>, hole: nat, h: nat,
                                      t: Txn, pf: Frame, ups: seq<Frame>)
    requires Insertable(s, level, l, r, key, fs, hole, h) && fs != []
    requires CanCut(s, level) && Agrees(s, level, key)
    requires var c := CutBranch(s, level, key);
             && Took(c.s, (t, true), level + 1)
             && Placed(c.s, t, level + 1, c.left, c.right, pf, ups)
             && level + 1 < |t.path| && PairReady(Rejoin(t, level, c), level)
    ensures var c, f := CutBranch(s, level, key), fs[0];
            && Halvable(f)
            && Ready(s, Rejoin(t, level, c), level, l, r, hole, Part(f, c.left, c.right, s.xid),
                     [Up(pf, f, c.left, c.right, s.xid)] + ups)
  {
    hide CutBranch;
    hide Insertable;
    hide CanCut;
    hide Took;
    hide Distinct;
    hide PairReady;
    hide StoredPair;
    hide Agrees;
    hide Holds;
    hide StoredAll;
    hide Part;
    hide Rest;
    var f, c := fs[0], CutBranch(s, level, key);
    SplitStored(s, level, l, r, key, fs, hole, h, t);
    RestNo(s, c, f, hole);
    RejoinHolds(s, t, level, c, f, hole, pf, ups);
    SplitOwned(s, level, key);
  }

  lemma {:induction false} SplitOwned(s: Txn, level: nat, key: nat)
    requires CanCut(s, level) && Agrees(s, level, key)
    ensures CutBranch(s, level, key).s.xid == s.xid
  {
    CutBranchKept(s, level, key);
  }

  lemma {:induction false} PartKids(f: Frame, pages: map<nat, Page>, a: nat, b: nat, xid: nat)
    requires Halvable(f) && StoredAll(pages, f.left) && StoredAll(pages, f.right)
    ensures StoredAll(pages, Part(f, a, b, xid).left) && StoredAll(pages, Part(f, a, b, xid).right)
  {
  }

  lemma {:induction false} SplitConfined(s: Txn, c: Txn, t: Txn, level: nat, no: nat)
    requires level < |s.path| && s.path[level].no == no && c.path == s.path
    requires Kept(s, c, {no}) && Kept(c, t, PathNos(c, level + 1))
    ensures Confined(s.pages, t.pages, PathNos(s, level))
  {
    assert no in PathNos(s, level);
    assert PathNos(c, level + 1) <= PathNos(s, level);
  }

  lemma {:induction false} SplitPlaced(s: Txn, t: Txn, u: Txn, level: nat, l: nat, r: nat, key: nat, fs: seq<Frame>, hole: nat,
                                       part: Frame, gs: seq<Frame>)
    requires Ready(s, u, level, l, r, hole, part, gs) && Loose(u) == Loose(t)
    requires Distinct(PathBag(fs) + Loose(s))
    requires FrameBag(part) + PathBag(gs) + Loose(t) == PathBag(fs) + Loose(s)
    requires !SetPair(u, level, l, r, key).failed
    ensures Placed(s, SetPair(u, level, l, r, key), level, l, r, Widened(part, key), gs)
    ensures FrameBag(Widened(part, key)) + PathBag(gs) + Loose(SetPair(u, level, l, r, key)) == PathBag(fs) + Loose(s)
  {
    hide SetPair;
    hide Placed;
    hide PairReady;
    hide StoredPath;
    hide Distinct;
    ReadyPlaced(s, u, level, l, r, key, hole, part, gs, Loose(t));
    ReadyLoose(s, u, level, l, r, key, hole, part, gs);
    assert FrameBag(Widened(part, key)) == FrameBag(part);
  }

  lemma {:induction false} SplitCount(fs: seq<Frame>, key: nat, o: Orders, a: nat, b: nat, xid: nat, pf: Frame, ups: seq<Frame>)
    requires fs != [] && Halvable(fs[0]) && FullFrame(fs[0], o)
    requires |Part(fs[0], a, b, xid).left| <= |Part(fs[0], a, b, xid).keys|
    requires |FrameBag(pf)| + |PathBag(ups)| == |PathBag(fs[1..])| + Growth(fs[1..], o)
    ensures |FrameBag(Widened(Part(fs[0], a, b, xid), key))| + |PathBag([Up(pf, fs[0], a, b, xid)] + ups)|
         == |PathBag(fs)| + Growth(fs, o)
  {
    hide Part;
    hide Rest;
    hide BagAll;
    var part := Part(fs[0], a, b, xid);
    SplitBag(fs[0], a, b, xid, pf, ups);
    assert FrameBag(Widened(part, key)) == FrameBag(part);
  }

  lemma {:induction false} SplitInserted(s: Txn, level: nat, l: nat, r: nat, key: nat, fs: seq<Frame>, hole: nat, h: nat,
                                         t: Txn, pf': Frame, ups': seq<Frame>)
    returns (pf: Frame, ups: seq<Frame>)
    requires Insertable(s, level, l, r, key, fs, hole, h) && fs != []
    requires CanCut(s, level) && Agrees(s, level, key)
    requires var c := CutBranch(s, level, key);
             && Took(c.s, (t, true), level + 1)
             && Pivot(fs[0].keys) >= 0
             && Inserted(c.s, t, level + 1, c.left, c.right, Pivot(fs[0].keys), fs[1..], h + 1, pf', ups')
             && level + 1 < |t.path| && PairReady(Rejoin(t, level, c), level)
             && !SetPair(Rejoin(t, level, c), level, l, r, key).failed
    ensures Inserted(s, SetPair(Rejoin(t, level, CutBranch(s, level, key)), level, l, r, key), level, l, r, key, fs, h, pf, ups)
  {
    hide CutBranch;
    hide Took;
    hide Distinct;
    hide PairReady;
    hide SetPair;
    hide Agrees;
    hide Placed;
    hide SoundPair;
    hide SoundPath;
    hide Part;
    hide Rest;
    hide Up;
    hide Holds;
    hide Safe;
    hide Growth;
    var f, c := fs[0], CutBranch(s, level, key);
    var u := Rejoin(t, level, c);
    SplitCut(s, level, l, r, key, fs, hole, h);
    FullHead(s, level, l, r, key, fs, hole, h);
    SplitReady(s, level, l, r, key, fs, hole, h, t, pf', ups');
    var part, gs := Part(f, c.left, c.right, s.xid), [Up(pf', f, c.left, c.right, s.xid)] + ups';
    SplitLoose(s, t, level, c, fs, hole, pf', ups');
    SplitPlaced(s, t, u, level, l, r, key, fs, hole, part, gs);
    SplitSound(fs, h, s.o, key, c.left, c.right, s.xid, pf', ups');
    SplitEntries(fs, key, c.left, c.right, s.xid, pf', ups');
    SplitCount(fs, key, s.o, c.left, c.right, s.xid, pf', ups');
    pf, ups := Widened(part, key), gs;
    InsertedBy(s, SetPair(u, level, l, r, key), level, l, r, key, fs, h, pf, ups);
  }

  /** On a sound path the key order and the position always choose the same half. */
  lemma {:induction false} AgreesSound(s: Txn, level: nat, key: nat, fs: seq<Frame>, hole: nat, h: nat)
    requires StoreOk(s) && level <= |s.path| && Safe(s, level) && Holds(s, level, fs, hole)
    requires SoundPath(fs, h, s.o) && PathLow(fs) <= key <= PathHigh(fs)
    ensures Agrees(s, level, key)
    decreases |fs|
  {
    hide Sound;
    if fs != [] {
      HoldsTail(s, level, fs, hole);
      HoldsPage(s, level, fs, hole);
      if FullFrame(fs[0], s.o) {
        CutSide(fs[0], h, PathLow(fs[1..]), PathHigh(fs[1..]), s.o, key);
        AgreesSound(s, level + 1, Pivot(fs[0].keys), fs[1..], fs[0].no, h + 1);
      }
    }
  }

  /** insert_into_parent on a sound path, unless the pages run out: both halves end up side by side in
      a sound path around the same entries, no page is lost or referenced twice, and the path has
      grown by one page per full branch and one more for a new root. */
  lemma {:induction false} InsertIntoParentSound(s: Txn, level: nat, l: nat, r: nat, key: nat, fs: seq<Frame>, hole: nat, h: nat)
    returns (pf: Frame, ups: seq<Frame>)
    requires Insertable(s, level, l, r, key, fs, hole, h) && Agrees(s, level, key)
    requires !InsertIntoParent(s, level, l, r, key).0.failed
    ensures Inserted(s, InsertIntoParent(s, level, l, r, key).0, level, l, r, key, fs, h, pf, ups)
    decreases |fs|
  {
    hide Inserted;
    hide SetPair;
    hide CutBranch;
    if fs == [] {
      RootTook(s, l, r, key);
      pf := RootInserted(s, level, l, r, key, hole, h);
      ups := [];
    } else {
      FullHead(s, level, l, r, key, fs, hole, h);
      if FullFrame(fs[0], s.o) {
        pf, ups := InsertSplit(s, level, l, r, key, fs, hole, h);
      } else {
        WidenTook(s, level, l, r, key);
        pf, ups := RoomInserted(s, level, l, r, key, fs, hole, h);
      }
    }
  }

  lemma {:induction false} InsertSplit(s: Txn, level: nat, l: nat, r: nat, key: nat, fs: seq<Frame>, hole: nat, h: nat)
    returns (pf: Frame, ups: seq<Frame>)
    requires Insertable(s, level, l, r, key, fs, hole, h) && Agrees(s, level, key)
    requires fs != [] && FullFrame(fs[0], s.o)
    requires !InsertIntoParent(s, level, l, r, key).0.failed
    ensures Inserted(s, InsertIntoParent(s, level, l, r, key).0, level, l, r, key, fs, h, pf, ups)
    decreases |fs|, 0
  {
    hide Inserted;
    hide SetPair;
    hide CutBranch;
    hide Took;
    hide InsertIntoParent;
    hide Insertable;
    hide CanCut;
    hide PairReady;
    var c, res := UnfoldSplit(s, level, l, r, key, fs, hole, h);
    SplitInsertable(s, level, l, r, key, fs, hole, h);
    var pf', ups' := InsertIntoParentSound(c.s, level + 1, c.left, c.right, Pivot(fs[0].keys), fs[1..], fs[0].no, h + 1);
    pf, ups := SplitInserted(s, level, l, r, key, fs, hole, h, res.0, pf', ups');
  }

  /** One unfolding of insert_into_parent at a full branch that succeeds. */
  lemma {:induction false} UnfoldSplit(s: Txn, level: nat, l: nat, r: nat, key: nat, fs: seq<Frame>, hole: nat, h: nat)
    returns (c: Halves, res: (Txn, bool))
    requires Insertable(s, level, l, r, key, fs, hole, h) && Agrees(s, level, key)
    requires fs != [] && FullFrame(fs[0], s.o)
    requires !InsertIntoParent(s, level, l, r, key).0.failed
    ensures CanCut(s, level) && c == CutBranch(s, level, key)
    ensures Pivot(fs[0].keys) >= 0
    ensures StoreOk(c.s) && level + 1 <= |c.s.path| && Safe(c.s, level + 1) && Agrees(c.s, level + 1, Pivot(fs[0].keys))
    ensures res == InsertIntoParent(c.s, level + 1, c.left, c.right, Pivot(fs[0].keys))
    ensures Took(c.s, res, level + 1) && res.1 && !res.0.failed
    ensures level + 1 < |res.0.path| && PairReady(Rejoin(res.0, level, c), level)
    ensures InsertIntoParent(s, level, l, r, key).0 == SetPair(Rejoin(res.0, level, c), level, l, r, key)
  {
    hide Holds;
    hide Loose;
    hide PathBag;
    hide Rejoin;
    hide Growth;
    hide SetPair;
    hide CutBranch;
    hide Took;
    hide Sound;
    hide SoundPath;
    hide Distinct;
    hide StoredPath;
    hide PairReady;
    FullHead(s, level, l, r, key, fs, hole, h);
    assert CanCut(s, level);
    c := CutBranch(s, level, key);
    SplitEntry(s, level, key);
    res := InsertIntoParent(c.s, level + 1, c.left, c.right, Pivot(fs[0].keys));
    SplitTook(s, level, l, r, key, c, res);
    SplitNotFailed(s, level, l, r, key, c, res);
  }

  lemma {:induction false} SplitNotFailed(s: Txn, level: nat, l: nat, r: nat, key: nat, c: Halves, res: (Txn, bool))
    requires Took(c.s, res, level + 1)
    requires res.1 ==> level + 1 < |res.0.path| && PairReady(Rejoin(res.0, level, c), level)
    requires res.1 ==> !SetPair(Rejoin(res.0, level, c), level, l, r, key).failed
    requires !res.1 ==> !res.0.failed
    ensures res.1 && !res.0.failed
  {
    if res.1 {
      SetPairClimbed(Rejoin(res.0, level, c), level, l, r, key);
    }
  }
}
