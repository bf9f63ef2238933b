/** What insert_into_parent leaves when pages do not run out: a stored, sound path around the two
    halves, with the page growth that `nsplits` predicted and no page lost or used twice. */
module BptInsertFrames {
  import opened BptTree
  import opened BptGrow
  import opened BptStore
  import opened BptInsert

  /** Distinct pages keep the steps of a path apart from the children beside it. */
  lemma {:induction false} StepInBag(steps: seq<Step>, i: nat)
    requires i < |steps|
    ensures steps[i].no in StepsBag(steps)
  {
    if i > 0 {
      StepInBag(steps[1..], i - 1);
      assert steps[1..][i - 1] == steps[i];
    }
  }

  lemma {:induction false} ClearByBag(s: Txn, level: nat, kids: multiset<nat>)
    requires level <= |s.path|
    requires Distinct(StepsBag(s.path[level..]) + kids)
    ensures forall p | p in PathNos(s, level) :: p !in kids
  {
    forall p | p in PathNos(s, level) ensures p !in kids {
      var i :| level <= i < |s.path| && s.path[i].no == p;
      StepInBag(s.path[level..], i - level);
      assert s.path[level..][i - level] == s.path[i];
      assert (StepsBag(s.path[level..]) + kids)[p] <= 1;
    }
  }

  lemma {:induction false} HoldsBag(s: Txn, level: nat, fs: seq<Frame>, hole: nat)
    requires Holds(s, level, fs, hole)
    ensures PathBag(fs) == StepsBag(s.path[level..]) + KidsBag(fs)
  {
    var steps := s.path[level..];
    forall i | 0 <= i < |fs| ensures steps[i].no == fs[i].no {
      assert s.path[level + i] == Step(fs[i].no, |fs[i].left|);
    }
    PathBagSplit(steps, fs);
  }

  lemma {:induction false} DistinctPart(a: multiset<nat>, b: multiset<nat>)
    requires a <= b && Distinct(b)
    ensures Distinct(a)
  {
    forall p ensures a[p] <= 1 {
      assert b[p] <= 1;
    }
  }

  /** Writing a separator into the page at `level` leaves the frames above it stored. */
  lemma {:induction false} SetKeyHolds(s: Txn, level: nat, i: nat, key: nat, fs: seq<Frame>, hole: nat)
    requires level < |s.path| && Safe(s, level) && Holds(s, level + 1, fs, hole) && Clear(s, level, fs)
    requires var no := s.path[level].no; no in s.pages && s.pages[no].Branch? && i < |s.pages[no].keys|
    ensures var t := SetKey(s, s.path[level].no, i, key); Holds(t, level + 1, fs, hole) && Clear(t, level, fs)
  {
    var no := s.path[level].no;
    var t := SetKey(s, no, i, key);
    assert no in PathNos(s, level);
    assert PathNos(t, level) == PathNos(s, level);
    forall j | 0 <= j < |fs| ensures fs[j].no != no {
      assert s.path[level + 1 + j] == Step(fs[j].no, |fs[j].left|);
    }
    StoredPathConfined(s.pages, t.pages, {no}, fs, hole);
  }

  ghost predicate Paired(u: Txn, t: Txn, level: nat, l: nat, r: nat, key: nat, fs: seq<Frame>, gs: seq<Frame>)
    requires PairReady(u, level)
  {
    var no, i := u.path[level].no, u.path[level].pindex;
    && |t.path| == |u.path| && t.path[level] == u.path[level] && no in t.pages
    && t.pages[no] == Branch(u.xid, u.pages[no].keys[i := key], u.pages[no].ptrs[i := l][i + 1 := r])
    && Holds(t, level + 1, gs, no) && Copied(fs, gs, u.xid)
    && t.root == Some(t.path[|t.path| - 1].no)
  }

  lemma {:induction false} HalfwayFrames(u: Txn, level: nat, l: nat, key: nat, fs: seq<Frame>, hole: nat)
    returns (gs: seq<Frame>)
    requires PairReady(u, level)
    requires l in u.pages && u.pages[l].xid == u.xid
    requires Holds(u, level + 1, fs, hole) && Clear(u, level, fs)
    requires !Halfway(u, level, l, key).failed
    ensures var v, no, i := Halfway(u, level, l, key), u.path[level].no, u.path[level].pindex;
            && no in v.pages && v.pages[no] == Branch(u.xid, u.pages[no].keys[i := key], u.pages[no].ptrs[i := l])
            && Holds(v, level + 1, gs, no) && Clear(v, level, gs) && Copied(fs, gs, u.xid)
  {
    var i, no := u.path[level].pindex, u.path[level].no;
    SetNodeAt(u, level, l, i);
    SetNodeClimbed(u, level, l, i);
    var s1 := SetNode(u, level, l, i).0;
    gs := SetNodeFrames(u, level, l, i, fs, hole);
    ClearKept(u, s1, level, fs, hole);
    CopiedKids(fs, gs, u.xid);
    SetKeyHolds(s1, level, i, key, gs, no);
  }

  lemma {:induction false} SetPairFrames(u: Txn, level: nat, l: nat, r: nat, key: nat, fs: seq<Frame>, hole: nat)
    returns (gs: seq<Frame>)
    requires PairReady(u, level)
    requires l in u.pages && u.pages[l].xid == u.xid && r in u.pages && u.pages[r].xid == u.xid
    requires Holds(u, level + 1, fs, hole) && Clear(u, level, fs)
    requires !SetPair(u, level, l, r, key).failed
    ensures Paired(u, SetPair(u, level, l, r, key), level, l, r, key, fs, gs)
  {
    hide Before;
    hide After;
    hide PathBag;
    hide Clear;
    hide Safe;
    hide StoreOk;
    hide SetNode;
    hide Halfway;
    hide Copied;
    hide StoredPath;
    hide Paired;
    var i, no := u.path[level].pindex, u.path[level].no;
    HalfwayReady(u, level, l, key);
    var v := Halfway(u, level, l, key);
    SetNodeClimbed(v, level, r, i + 1);
    gs := HalfwayFrames(u, level, l, key, fs, hole);
    CopiedSame(fs, gs, u.xid);
    var hs := SetNodeFrames(v, level, r, i + 1, gs, no);
    CopiedOwned(gs, hs, u.xid);
    PairedStep(u, v, SetNode(v, level, r, i + 1).0, level, l, r, key, fs, gs);
  }

  lemma {:induction false} PairedStep(u: Txn, v: Txn, t: Txn, level: nat, l: nat, r: nat, key: nat, fs: seq<Frame>, gs: seq<Frame>)
    requires PairReady(u, level) && PairReady(v, level)
    requires v.path[level] == u.path[level] && |v.path| == |u.path| && v.xid == u.xid
    requires var no, i := u.path[level].no, u.path[level].pindex;
             v.pages[no] == Branch(u.xid, u.pages[no].keys[i := key], u.pages[no].ptrs[i := l])
    requires Reattached(v, t, level, r, u.path[level].pindex + 1, gs, gs) && t.path[level].pindex == u.path[level].pindex
    requires Copied(fs, gs, u.xid)
    ensures Paired(u, t, level, l, r, key, fs, gs)
  {
  }

  lemma {:induction false} SetPairBag(u: Txn, level: nat, l: nat, r: nat, key: nat)
    requires PairReady(u, level)
    ensures var t := SetPair(u, level, l, r, key);
            |t.path| == |u.path| && StepsBag(t.path[level..]) + Loose(t) == StepsBag(u.path[level..]) + Loose(u)
  {
    hide SetNode;
    var i := u.path[level].pindex;
    HalfwayReady(u, level, l, key);
    SetNodeBag(u, level, l, i);
    SetNodeBag(Halfway(u, level, l, key), level, r, i + 1);
  }

  // ---- the contract of a successful insert_into_parent

  /** Before: the path from `level` up is stored around some page, sound, and disjoint from the pages
      in hand; `key` separates two halves that both fit the hole. */
  ghost predicate Insertable(s: Txn, level: nat, l: nat, r: nat, key: nat, fs: seq<Frame>, hole: nat, h: nat) {
    && StoreOk(s) && level <= |s.path| && Safe(s, level)
    && Holds(s, level, fs, hole)
    && SoundPath(fs, h, s.o) && PathLow(fs) < key <= PathHigh(fs)
    && Distinct(PathBag(fs) + Loose(s))
    && l in s.pages && s.pages[l].xid == s.xid && r in s.pages && s.pages[r].xid == s.xid
  }

  /** After: a pair frame `pf` under the frames `ups`, sound, with the same entries on both sides, the
      same pages but for those taken from the supply, and as many more as predicted. */
  ghost predicate Inserted(s: Txn, t: Txn, level: nat, l: nat, r: nat, key: nat, fs: seq<Frame>, h: nat,
                           pf: Frame, ups: seq<Frame>)
  {
    && Placed(s, t, level, l, r, pf, ups)
    && SoundPath(fs, h, s.o) && SoundPair(pf, ups, h, s.o, PathLow(fs), key, PathHigh(fs))
    && Before(ups) + FlattenAll(pf.left) == Before(fs)
    && FlattenAll(pf.right) + After(ups) == After(fs)
    && FrameBag(pf) + PathBag(ups) + Loose(t) == PathBag(fs) + Loose(s)
    && |FrameBag(pf)| + |PathBag(ups)| == |PathBag(fs)| + Growth(fs, s.o)
  }

  ghost predicate Placed(s: Txn, t: Txn, level: nat, l: nat, r: nat, pf: Frame, ups: seq<Frame>) {
    && level < |t.path| && t.path[level] == Step(pf.no, |pf.left|)
    && StoredPair(t.pages, pf, l, r)
    && Holds(t, level + 1, ups, pf.no)
    && pf.xid == s.xid && (forall f | f in ups :: f.xid == s.xid)
    && t.root == Some(t.path[|t.path| - 1].no)
  }

  lemma {:induction false} Cancel(a: multiset<nat>, x: multiset<nat>, y: multiset<nat>)
    requires a + x == a + y
    ensures x == y
  {
    forall p ensures x[p] == y[p] {
      assert (a + x)[p] == (a + y)[p];
    }
  }

  // -- a new root

  lemma {:induction false} RootPlaced(s: Txn, level: nat, l: nat, r: nat, key: nat, hole: nat, h: nat)
    returns (pf: Frame)
    requires Insertable(s, level, l, r, key, [], hole, h) && s.supply != []
    requires PairReady(RootAdded(s), level) && !SetPair(RootAdded(s), level, l, r, key).failed
    ensures pf == Frame(s.supply[0], s.xid, [key], [], [])
    ensures Placed(s, SetPair(RootAdded(s), level, l, r, key), level, l, r, pf, [])
  {
    hide SetPair;
    hide Distinct;
    var u := RootAdded(s);
    var b := s.supply[0];
    assert b in s.supply;
    pf := Frame(b, s.xid, [key], [], []);
    assert StoredPath(u.pages, [], 0);
    var gs := SetPairFrames(u, level, l, r, key, [], 0);
    assert Nos([]) == [];
    assert u.pages[b].ptrs[0 := l][1 := r] == [l, r];
  }

  lemma {:induction false} RootInserted(s: Txn, level: nat, l: nat, r: nat, key: nat, hole: nat, h: nat)
    returns (pf: Frame)
    requires Insertable(s, level, l, r, key, [], hole, h) && s.supply != []
    requires PairReady(RootAdded(s), level) && !SetPair(RootAdded(s), level, l, r, key).failed
    ensures Inserted(s, SetPair(RootAdded(s), level, l, r, key), level, l, r, key, [], h, pf, [])
  {
    hide SetPair;
    hide Placed;
    hide PairReady;
    hide Distinct;
    hide Safe;
    hide RootAdded;
    pf := RootPlaced(s, level, l, r, key, hole, h);
    RootBag(s, l, r, key);
    assert FrameBag(pf) == multiset{s.supply[0]};
  }

  lemma {:induction false} RootBag(s: Txn, l: nat, r: nat, key: nat)
    requires s.supply != [] && PairReady(RootAdded(s), |s.path|)
    ensures multiset{s.supply[0]} + Loose(SetPair(RootAdded(s), |s.path|, l, r, key)) == Loose(s)
  {
    hide SetPair;
    var u, level, b := RootAdded(s), |s.path|, s.supply[0];
    var t := SetPair(u, level, l, r, key);
    SetPairBag(u, level, l, r, key);
    SetPairClimbed(u, level, l, r, key);
    assert u.path[level..] == [Step(b, 0)] && t.path[level..] == [Step(b, 0)];
    Cancel(StepsBag([Step(b, 0)]), Loose(t), Loose(u));
    assert s.supply == [b] + s.supply[1..];
    assert multiset(s.supply) == multiset{b} + multiset(u.supply);
  }

  // -- a branch with room

  lemma {:induction false} ApartBags(f: nat, b: nat, l: multiset<nat>, r: multiset<nat>,
                                     steps: multiset<nat>, kids: multiset<nat>, x: multiset<nat>, y: multiset<nat>)
    requires Distinct(multiset{f} + l + r + (steps + kids) + x)
    requires multiset{b} + y <= multiset{f} + x
    ensures f !in kids && Distinct(multiset{b} + steps + kids)
  {
    assert (multiset{f} + l + r + (steps + kids) + x)[f] <= 1;
    forall p ensures (multiset{b} + steps + kids)[p] <= 1 {
      assert (multiset{f} + l + r + (steps + kids) + x)[p] <= 1;
      assert (multiset{b} + y)[p] <= (multiset{f} + x)[p];
    }
  }

  /** Taking the branch's page leaves the rest of the path apart from it. */
  lemma {:induction false} UpperClear(s: Txn, u: Txn, level: nat, fs: seq<Frame>, hole: nat, b: nat)
    requires fs != [] && Holds(s, level, fs, hole)
    requires Distinct(PathBag(fs) + Loose(s))
    requires u.path == s.path[level := Step(b, |fs[0].left|)]
    requires multiset{b} + Loose(u) <= multiset{fs[0].no} + Loose(s)
    ensures Clear(u, level, fs[1..]) && fs[0].no !in KidsBag(fs[1..])
  {
    hide Distinct;
    hide Holds;
    var f, rest := fs[0], fs[1..];
    HoldsTail(s, level, fs, hole);
    HoldsBag(s, level + 1, rest, f.no);
    assert u.path[level + 1..] == s.path[level + 1..];
    StepsBagCons(u.path, level);
    ApartBags(f.no, b, BagAll(f.left), BagAll(f.right), StepsBag(u.path[level + 1..]), KidsBag(rest), Loose(s), Loose(u));
    ClearByBag(u, level, KidsBag(rest));
  }

  lemma {:induction false} UpperHolds(s: Txn, u: Txn, level: nat, fs: seq<Frame>, hole: nat, b: nat)
    requires fs != [] && Holds(s, level, fs, hole) && Safe(s, level)
    requires u.path == s.path[level := Step(b, |fs[0].left|)]
    requires Confined(s.pages, u.pages, {fs[0].no})
    requires fs[0].no !in KidsBag(fs[1..])
    ensures Holds(u, level + 1, fs[1..], fs[0].no)
  {
    var f, rest := fs[0], fs[1..];
    HoldsTail(s, level, fs, hole);
    forall i | 0 <= i < |rest| ensures rest[i].no != f.no {
      assert s.path[level + 1 + i] == Step(rest[i].no, |rest[i].left|);
    }
    StoredPathConfined(s.pages, u.pages, {f.no}, rest, f.no);
  }

  /** The gap of a widened page filled with both halves and their separator. */
  lemma {:induction false} GapFilled(page: Page, i: nat, l: nat, r: nat, key: nat)
    requires page.Branch? && |page.ptrs| == |page.keys| + 1 && i < |page.ptrs|
    ensures var g := Gap(page, i);
            && g.keys[i := key] == InsertKey(page.keys, i, key)
            && g.ptrs[i := l][i + 1 := r] == page.ptrs[..i] + [l, r] + page.ptrs[i + 1..]
  {
  }

  lemma {:induction false} KidsStored(s: Txn, t: Txn, level: nat, f: Frame, rest: seq<Frame>, hole: nat)
    requires Holds(s, level, [f] + rest, hole)
    requires Distinct(PathBag([f] + rest) + Loose(s))
    requires Confined(s.pages, t.pages, PathNos(s, level))
    ensures StoredAll(t.pages, f.left) && StoredAll(t.pages, f.right)
  {
    var fs := [f] + rest;
    HoldsBag(s, level, fs, hole);
    DistinctPart(StepsBag(s.path[level..]) + KidsBag(fs), PathBag(fs) + Loose(s));
    ClearByBag(s, level, KidsBag(fs));
    StoredAllKept(s.pages, t.pages, f.left);
    StoredAllKept(s.pages, t.pages, f.right);
  }

  /** The state before the pair is written, and the frames above it. */
  lemma {:induction false} RoomReady(s: Txn, level: nat, l: nat, r: nat, key: nat, fs: seq<Frame>, hole: nat, h: nat)
    requires Insertable(s, level, l, r, key, fs, hole, h) && fs != [] && CanOwn(s, s.path[level].no)
    ensures var u, f := Widen(s, level), fs[0];
            && PairReady(u, level) && u.xid == s.xid
            && u.path[level].pindex == |f.left|
            && u.pages[u.path[level].no] == Gap(Branch(s.xid, f.keys, Nos(f.left) + [hole] + Nos(f.right)), |f.left|)
            && Holds(u, level + 1, fs[1..], f.no) && Clear(u, level, fs[1..])
            && l in u.pages && u.pages[l].xid == s.xid && r in u.pages && u.pages[r].xid == s.xid
            && multiset{u.path[level].no} + Loose(u) == multiset{f.no} + Loose(s)
            && u.path == s.path[level := Step(u.path[level].no, |f.left|)]
    ensures Holds(s, level, fs, hole) && |fs[0].keys| == |fs[0].left| + |fs[0].right|
    ensures level < |s.path| && BranchAt(s.pages, s.path[level].no, s.path[level].pindex)
    ensures Distinct(PathBag(fs) + Loose(s))
    ensures Took(s, (SetPair(Widen(s, level), level, l, r, key), true), level)
  {
    hide SetPair;
    hide Took;
    SoundHead(fs, h, s.o);
    WidenTook(s, level, l, r, key);
    hide SoundPath;
    hide StoredPath;
    hide Distinct;
    hide Owned;
    var f := fs[0];
    HoldsTail(s, level, fs, hole);
    OwnedKept(s, f.no);
    OwnedLoose(s, f.no);
    WidenReady(s, level);
    var u := Widen(s, level);
    HoldsPage(s, level, fs, hole);
    assert Confined(s.pages, u.pages, {f.no});
    UpperClear(s, u, level, fs, hole, u.path[level].no);
    UpperHolds(s, u, level, fs, hole, u.path[level].no);
  }

  lemma {:induction false} SoundHead(fs: seq<Frame>, h: nat, o: Orders)
    requires SoundPath(fs, h, o) && fs != []
    ensures |fs[0].keys| == |fs[0].left| + |fs[0].right|
  {
  }

  lemma {:induction false} PairStored(s: Txn, t: Txn, level: nat, l: nat, r: nat, key: nat,
                                      f: Frame, rest: seq<Frame>, hole: nat, b: nat)
    requires Holds(s, level, [f] + rest, hole) && |f.keys| == |f.left| + |f.right|
    requires Distinct(PathBag([f] + rest) + Loose(s))
    requires Confined(s.pages, t.pages, PathNos(s, level))
    requires var g := Gap(Branch(s.xid, f.keys, Nos(f.left) + [hole] + Nos(f.right)), |f.left|);
             b in t.pages && t.pages[b] == Branch(s.xid, g.keys[|f.left| := key], g.ptrs[|f.left| := l][|f.left| + 1 := r])
    ensures StoredPair(t.pages, Widened(f.(no := b, xid := s.xid), key), l, r)
  {
    var page := Branch(s.xid, f.keys, Nos(f.left) + [hole] + Nos(f.right));
    GapFilled(page, |f.left|, l, r, key);
    assert page.ptrs[..|f.left|] == Nos(f.left) && page.ptrs[|f.left| + 1..] == Nos(f.right);
    KidsStored(s, t, level, f, rest, hole);
  }

  lemma {:induction false} RoomPlaced(s: Txn, level: nat, l: nat, r: nat, key: nat, fs: seq<Frame>, hole: nat, h: nat)
    returns (pf: Frame, ups: seq<Frame>)
    requires Insertable(s, level, l, r, key, fs, hole, h) && fs != [] && CanOwn(s, s.path[level].no)
    requires PairReady(Widen(s, level), level) && !SetPair(Widen(s, level), level, l, r, key).failed
    ensures Placed(s, SetPair(Widen(s, level), level, l, r, key), level, l, r, pf, ups)
    ensures pf == Widened(fs[0].(no := pf.no, xid := s.xid), key) && Copied(fs[1..], ups, s.xid)
    ensures pf.no == Widen(s, level).path[level].no
  {
    hide SetPair;
    hide Widen;
    hide Insertable;
    hide Holds;
    hide Placed;
    hide Paired;
    hide PairReady;
    hide Copied;
    hide Distinct;
    hide Grown;
    hide StoredPair;
    RoomReady(s, level, l, r, key, fs, hole, h);
    var u, f, t := Widen(s, level), fs[0], SetPair(Widen(s, level), level, l, r, key);
    ups := SetPairFrames(u, level, l, r, key, fs[1..], f.no);
    PairedPage(u, t, level, l, r, key, fs[1..], ups);
    CopiedSame(fs[1..], ups, s.xid);
    var b := u.path[level].no;
    pf := Widened(f.(no := b, xid := s.xid), key);
    assert [f] + fs[1..] == fs;
    PairStored(s, t, level, l, r, key, f, fs[1..], hole, b);
    PlacedBy(s, u, t, level, l, r, key, fs[1..], pf, ups);
  }

  lemma {:induction false} PairedPage(u: Txn, t: Txn, level: nat, l: nat, r: nat, key: nat, fs: seq<Frame>, gs: seq<Frame>)
    requires PairReady(u, level) && Paired(u, t, level, l, r, key, fs, gs)
    ensures var no, i := u.path[level].no, u.path[level].pindex;
            && i < |u.pages[no].keys| && no in t.pages
            && t.pages[no] == Branch(u.xid, u.pages[no].keys[i := key], u.pages[no].ptrs[i := l][i + 1 := r])
            && Copied(fs, gs, u.xid)
  {
  }

  lemma {:induction false} PlacedBy(s: Txn, u: Txn, t: Txn, level: nat, l: nat, r: nat, key: nat, fs: seq<Frame>, pf: Frame, ups: seq<Frame>)
    requires PairReady(u, level) && Paired(u, t, level, l, r, key, fs, ups)
    requires u.path[level] == Step(pf.no, |pf.left|) && pf.xid == s.xid
    requires StoredPair(t.pages, pf, l, r) && forall f | f in ups :: f.xid == s.xid
    ensures Placed(s, t, level, l, r, pf, ups)
  {
  }

  lemma {:induction false} RoomSound(fs: seq<Frame>, h: nat, o: Orders, key: nat, b: nat, xid: nat, ups: seq<Frame>)
    requires fs != [] && SoundPath(fs, h, o) && !FullFrame(fs[0], o)
    requires PathLow(fs) < key <= PathHigh(fs) && Copied(fs[1..], ups, xid)
    ensures |fs[0].left| <= |fs[0].keys|
    ensures SoundPair(Widened(fs[0].(no := b, xid := xid), key), ups, h, o, PathLow(fs), key, PathHigh(fs))
  {
    hide Sound;
    hide Copied;
    CopiedSound(fs[1..], ups, xid, h + 1, o);
    WidenedFrame(fs[0].(no := b, xid := xid), h, PathLow(ups), PathHigh(ups), o, key);
  }

  lemma {:induction false} RoomBags(b: multiset<nat>, f: multiset<nat>, l: multiset<nat>, r: multiset<nat>, k: multiset<nat>,
                                    st: multiset<nat>, su: multiset<nat>, x: multiset<nat>, y: multiset<nat>, z: multiset<nat>)
    requires b + st + x == b + su + y && b + y == f + z
    ensures (b + l + r) + (st + k) + x == (f + l + r) + (su + k) + z
  {
    assert (b + l + r) + (st + k) + x == (b + st + x) + l + r + k;
    assert (b + su + y) + l + r + k == (b + y) + su + l + r + k;
    assert (f + z) + su + l + r + k == (f + l + r) + (su + k) + z;
  }

  lemma {:induction false} RoomBag(s: Txn, u: Txn, t: Txn, level: nat, f: Frame, rest: seq<Frame>, ups: seq<Frame>, pf: Frame)
    requires Holds(u, level + 1, rest, f.no) && Holds(t, level + 1, ups, pf.no) && Copied(rest, ups, s.xid)
    requires u.path[level].no == pf.no == t.path[level].no && pf.left == f.left && pf.right == f.right
    requires StepsBag(t.path[level..]) + Loose(t) == StepsBag(u.path[level..]) + Loose(u)
    requires multiset{pf.no} + Loose(u) == multiset{f.no} + Loose(s)
    ensures FrameBag(pf) + PathBag(ups) + Loose(t) == FrameBag(f) + PathBag(rest) + Loose(s)
  {
    hide Copied;
    HoldsBag(u, level + 1, rest, f.no);
    HoldsBag(t, level + 1, ups, pf.no);
    CopiedKids(rest, ups, s.xid);
    StepsBagCons(t.path, level);
    StepsBagCons(u.path, level);
    RoomBags(multiset{pf.no}, multiset{f.no}, BagAll(f.left), BagAll(f.right), KidsBag(rest),
             StepsBag(t.path[level + 1..]), StepsBag(u.path[level + 1..]), Loose(t), Loose(u), Loose(s));
  }

  lemma {:induction false} RoomEntries(fs: seq<Frame>, ups: seq<Frame>, pf: Frame, xid: nat, o: Orders)
    requires fs != [] && Copied(fs[1..], ups, xid) && pf.left == fs[0].left && pf.right == fs[0].right
    requires !FullFrame(fs[0], o)
    ensures Before(ups) + FlattenAll(pf.left) == Before(fs)
    ensures FlattenAll(pf.right) + After(ups) == After(fs)
    ensures |FrameBag(pf)| + |PathBag(ups)| == |PathBag(fs)| + Growth(fs, o)
  {
    hide Copied;
    CopiedSame(fs[1..], ups, xid);
  }

  lemma {:induction false} InsertedBy(s: Txn, t: Txn, level: nat, l: nat, r: nat, key: nat, fs: seq<Frame>, h: nat,
                                      pf: Frame, ups: seq<Frame>)
    requires Placed(s, t, level, l, r, pf, ups)
    requires SoundPath(fs, h, s.o) && SoundPair(pf, ups, h, s.o, PathLow(fs), key, PathHigh(fs))
    requires Before(ups) + FlattenAll(pf.left) == Before(fs) && FlattenAll(pf.right) + After(ups) == After(fs)
    requires FrameBag(pf) + PathBag(ups) + Loose(t) == PathBag(fs) + Loose(s)
    requires |FrameBag(pf)| + |PathBag(ups)| == |PathBag(fs)| + Growth(fs, s.o)
    ensures Inserted(s, t, level, l, r, key, fs, h, pf, ups)
  {
  }

  lemma {:induction false} RoomInserted(s: Txn, level: nat, l: nat, r: nat, key: nat, fs: seq<Frame>, hole: nat, h: nat)
    returns (pf: Frame, ups: seq<Frame>)
    requires Insertable(s, level, l, r, key, fs, hole, h) && fs != [] && CanOwn(s, s.path[level].no)
    requires !FullFrame(fs[0], s.o)
    requires PairReady(Widen(s, level), level) && !SetPair(Widen(s, level), level, l, r, key).failed
    ensures Inserted(s, SetPair(Widen(s, level), level, l, r, key), level, l, r, key, fs, h, pf, ups)
  {
    hide SetPair;
    hide Widen;
    hide SoundPath;
    hide SoundPair;
    hide Copied;
    hide Distinct;
    hide StoredPair;
    hide StoredPath;
    hide PairReady;
    hide Safe;
    hide Inserted;
    hide Growth;
    var f, rest := fs[0], fs[1..];
    pf, ups := RoomPlaced(s, level, l, r, key, fs, hole, h);
    RoomReady(s, level, l, r, key, fs, hole, h);
    RoomSound(fs, h, s.o, key, pf.no, s.xid, ups);
    RoomEntries(fs, ups, pf, s.xid, s.o);
    var u, t := Widen(s, level), SetPair(Widen(s, level), level, l, r, key);
    SetPairBag(u, level, l, r, key);
    RoomBag(s, u, t, level, f, rest, ups, pf);
    InsertedBy(s, t, level, l, r, key, fs, h, pf, ups);
  }
}
