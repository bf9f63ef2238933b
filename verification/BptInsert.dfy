/** Adding a split child to its ancestors (lib/bpt.c insert_into_parent), as values. */
module BptInsert {
  import opened BptTree
  import opened BptGrow
  import opened BptStore

  // ---- the operations

  function SetKey(s: Txn, no: nat, i: nat, key: nat): Txn
    requires no in s.pages && s.pages[no].Branch? && i < |s.pages[no].keys|
  {
    s.(pages := s.pages[no := s.pages[no].(keys := s.pages[no].keys[i := key])])
  }

  /** A branch page with the slot after child `i` shifted free. */
  function Gap(page: Page, i: nat): Page
    requires page.Branch? && |page.ptrs| == |page.keys| + 1 && i < |page.ptrs|
  {
    page.(keys := page.keys[..i] + [0] + page.keys[i..], ptrs := page.ptrs[..i + 1] + [0] + page.ptrs[i + 1..])
  }

  /** The ancestor at `level` is owned and has a slot for two children at its path position. */
  ghost predicate PairReady(s: Txn, level: nat) {
    && StoreOk(s) && level < |s.path| && Safe(s, level)
    && BranchAt(s.pages, s.path[level].no, s.path[level].pindex + 1)
    && s.pages[s.path[level].no].xid == s.xid
  }

  lemma {:induction false} SetNodeAt(s: Txn, level: nat, n: nat, idx: nat)
    requires StoreOk(s) && level < |s.path| && Safe(s, level)
    requires BranchAt(s.pages, s.path[level].no, idx) && s.pages[s.path[level].no].xid == s.xid
    ensures var t, no := SetNode(s, level, n, idx).0, s.path[level].no;
            && |t.path| == |s.path| && t.path[level] == s.path[level] && no in t.pages
            && t.pages[no].Branch? && t.pages[no].xid == s.xid && t.pages[no].keys == s.pages[no].keys
            && |t.pages[no].ptrs| == |s.pages[no].ptrs|
            && (n in s.pages && s.pages[n].xid == s.xid ==> t.pages[no].ptrs == s.pages[no].ptrs[idx := n])
  {
    AttachKept(s, level, n, idx);
    var t := Attach(s, level, n, idx);
    SetNodeClimbed(t, level + 1, t.path[level].no, UpIndex(t, level));
    assert t.path[level].no !in PathNos(t, level + 1);
  }

  /** The left half and the separator written into the slot, with a climb to the root. */
  function Halfway(s: Txn, level: nat, l: nat, key: nat): Txn
    requires PairReady(s, level)
  {
    var i := s.path[level].pindex;
    SetNodeAt(s, level, l, i);
    SetKey(SetNode(s, level, l, i).0, s.path[level].no, i, key)
  }

  lemma {:induction false} HalfwayReady(s: Txn, level: nat, l: nat, key: nat)
    requires PairReady(s, level)
    ensures var t := Halfway(s, level, l, key);
            PairReady(t, level) && Climbed(s, t, level) && t.xid == s.xid && t.path[level] == s.path[level]
  {
    hide SetNode;
    var i := s.path[level].pindex;
    SetNodeAt(s, level, l, i);
    SetNodeClimbed(s, level, l, i);
    var s1 := SetNode(s, level, l, i).0;
    SetKeyClimbed(s1, level, i, key);
    ClimbedSame(s, s1, SetKey(s1, s1.path[level].no, i, key), level);
  }

  /** Then the right half, with another climb. */
  function SetPair(s: Txn, level: nat, l: nat, r: nat, key: nat): Txn
    requires PairReady(s, level)
  {
    HalfwayReady(s, level, l, key);
    SetNode(Halfway(s, level, l, key), level, r, s.path[level].pindex + 1).0
  }

  lemma {:induction false} SetKeyKept(s: Txn, no: nat, i: nat, key: nat)
    requires StoreOk(s) && no in s.pages && s.pages[no].Branch? && i < |s.pages[no].keys| && s.pages[no].xid == s.xid
    ensures Kept(s, SetKey(s, no, i, key), {no})
  {
  }

  lemma {:induction false} SetKeyClimbed(s: Txn, level: nat, i: nat, key: nat)
    requires StoreOk(s) && level < |s.path| && Safe(s, level)
    requires var no := s.path[level].no; i < |s.pages[no].keys| && s.pages[no].xid == s.xid
    ensures Climbed(s, SetKey(s, s.path[level].no, i, key), level)
  {
    var no := s.path[level].no;
    SetKeyKept(s, no, i, key);
    assert no in PathNos(s, level);
    assert Safe(SetKey(s, no, i, key), level);
  }

  lemma {:induction false} ClimbedSame(s: Txn, t: Txn, u: Txn, level: nat)
    requires level < |s.path|
    requires Climbed(s, t, level) && Climbed(t, u, level)
    ensures Climbed(s, u, level)
  {
    KeptTrans(s, t, u, PathNos(s, level), PathNos(t, level));
  }

  /** What SetPair does to the page at `level`, whether or not a climb failed, and that it keeps the rest. */
  lemma {:induction false} SetPairClimbed(s: Txn, level: nat, l: nat, r: nat, key: nat)
    requires PairReady(s, level)
    ensures var t := SetPair(s, level, l, r, key);
            && Climbed(s, t, level) && t.path[level] == s.path[level]
            && BranchAt(t.pages, t.path[level].no, t.path[level].pindex + 1)
            && t.pages[t.path[level].no].xid == s.xid
  {
    hide SetNode;
    hide Halfway;
    hide Climbed;
    hide Safe;
    hide StoreOk;
    var i := s.path[level].pindex;
    HalfwayReady(s, level, l, key);
    var v := Halfway(s, level, l, key);
    SetNodeAt(v, level, r, i + 1);
    SetNodeClimbed(v, level, r, i + 1);
    ClimbedSame(s, v, SetNode(v, level, r, i + 1).0, level);
  }

  /** A path that took in a pair at `level`: same or one longer, every page from the old path or new. */
  ghost predicate Grown(s: Txn, t: Txn, level: nat) {
    && Kept(s, t, PathNos(s, level)) && Safe(t, level)
    && level < |t.path| && level <= |s.path|
    && t.path[..level] == s.path[..level]
    && (forall i | level <= i < |t.path| :: t.path[i].no in PathNos(s, level) || t.path[i].no !in s.pages)
    && BranchAt(t.pages, t.path[level].no, t.path[level].pindex + 1)
  }

  /** insert_into_parent when there is no parent: a new root. */
  function RootAdded(s: Txn): Txn
    requires s.supply != []
  {
    var b := s.supply[0];
    s.(supply := s.supply[1..], pages := s.pages[b := Branch(s.xid, [0], [0, 0])], path := s.path + [Step(b, 0)])
  }

  /** insert_into_parent when the branch has room. */
  function Widen(s: Txn, level: nat): Txn
    requires level < |s.path| && BranchAt(s.pages, s.path[level].no, s.path[level].pindex)
    requires CanOwn(s, s.path[level].no)
  {
    var (s1, b) := Owned(s, s.path[level].no);
    SetStep(s1, level, b).(pages := s1.pages[b := Gap(s1.pages[b], s.path[level].pindex)])
  }

  lemma {:induction false} RootAddedReady(s: Txn)
    requires StoreOk(s) && s.supply != []
    ensures var t := RootAdded(s); PairReady(t, |s.path|) && Kept(s, t, {})
  {
    assert s.supply[0] in s.supply && s.supply[0] !in s.supply[1..];
  }

  lemma {:induction false} GapAt(page: Page, i: nat)
    requires page.Branch? && |page.ptrs| == |page.keys| + 1 && i < |page.ptrs|
    ensures var g := Gap(page, i); g.Branch? && |g.keys| == |page.keys| + 1 && |g.ptrs| == |page.ptrs| + 1 && g.xid == page.xid
  {
  }

  lemma {:induction false} PageKept(s: Txn, no: nat, page: Page)
    requires StoreOk(s) && no in s.pages && s.pages[no].xid == s.xid == page.xid
    ensures Kept(s, s.(pages := s.pages[no := page]), {no})
  {
  }

  lemma {:induction false} GapReady(s: Txn, level: nat)
    requires StoreOk(s) && level < |s.path| && Safe(s, level) && s.pages[s.path[level].no].xid == s.xid
    ensures var no := s.path[level].no;
            var t := s.(pages := s.pages[no := Gap(s.pages[no], s.path[level].pindex)]);
            PairReady(t, level) && Kept(s, t, {no})
  {
    hide Gap;
    GapAt(s.pages[s.path[level].no], s.path[level].pindex);
  }

  lemma {:induction false} WidenReady(s: Txn, level: nat)
    requires StoreOk(s) && level < |s.path| && Safe(s, level)
    requires CanOwn(s, s.path[level].no)
    ensures var t := Widen(s, level);
            PairReady(t, level) && Kept(s, t, PathNos(s, level)) && SamePath(s, t, level)
  {
    hide Owned;
    hide Stamped;
    hide Kept;
    hide StoreOk;
    hide PairReady;
    hide Gap;
    var no, i := s.path[level].no, s.path[level].pindex;
    OwnedKept(s, no);
    var (s1, b) := Owned(s, no);
    StepKept(s, s1, level, no, b, i);
    var s2 := SetStep(s1, level, b);
    GapReady(s2, level);
    KeptTrans(s, s2, Widen(s, level), {no}, {b});
    assert no in PathNos(s, level);
    KeptWider(s, Widen(s, level), {no}, PathNos(s, level));
  }

  // ---- splitting a full branch

  predicate FullAt(s: Txn, level: nat)
    requires level < |s.path| && s.path[level].no in s.pages
  {
    s.pages[s.path[level].no].Branch? && |s.pages[s.path[level].no].keys| == s.o.branch - 1
  }

  /** At every full branch the order of the new separator and the middle one agrees with the path. */
  predicate Agrees(s: Txn, level: nat, key: nat)
    requires level <= |s.path| && Safe(s, level) && s.o.branch >= 4
    decreases |s.path| - level
  {
    level == |s.path| || !FullAt(s, level) ||
    var keys := s.pages[s.path[level].no].keys;
    (key < Pivot(keys) <==> s.path[level].pindex < Middle(keys)) && Agrees(s, level + 1, Pivot(keys))
  }

  /** The right half on a page of its own. */
  function CutRight(s: Txn, level: nat): Txn
    requires s.supply != [] && level < |s.path| && BranchAt(s.pages, s.path[level].no, s.path[level].pindex)
  {
    var page := s.pages[s.path[level].no];
    var m := Middle(page.keys);
    s.(supply := s.supply[1..], pages := s.pages[s.supply[0] := Branch(s.xid, page.keys[m..], page.ptrs[m..])])
  }

  /** Then the left half, in place or on the copy of the branch. */
  function CutLeft(s: Txn, no: nat, m: nat): (Txn, nat)
    requires no in s.pages && s.pages[no].Branch? && CanOwn(s, no)
    requires 1 <= m <= |s.pages[no].keys| && |s.pages[no].ptrs| == |s.pages[no].keys| + 1
  {
    var page := s.pages[no];
    var (t, left) := Owned(s, no);
    (t.(pages := t.pages[left := Branch(s.xid, page.keys[..m - 1], page.ptrs[..m])]), left)
  }

  /** A branch cut in two: both pages, and the half and position that take the new child. */
  datatype Halves = Halves(s: Txn, left: nat, right: nat, half: nat, idx: nat)

  ghost predicate CanCut(s: Txn, level: nat) {
    && StoreOk(s) && level < |s.path| && Safe(s, level) && FullAt(s, level)
    && s.supply != [] && CanOwn(CutRight(s, level), s.path[level].no)
  }

  function CutBranch(s: Txn, level: nat, key: nat): Halves
    requires CanCut(s, level) && Agrees(s, level, key)
  {
    var no, i := s.path[level].no, s.path[level].pindex;
    var keys := s.pages[no].keys;
    var m, right := Middle(keys), s.supply[0];
    assert right in s.supply;
    var (t, left) := CutLeft(CutRight(s, level), no, m);
    assert left != right by {
      var r := CutRight(s, level);
      assert r.supply == s.supply[1..] && right !in r.supply;
    }
    var half, idx := if key < Pivot(keys) then left else right, if key < Pivot(keys) then i else i - m;
    Halves(t.(pages := t.pages[half := Gap(t.pages[half], idx)]), left, right, half, idx)
  }

  lemma {:induction false} CutRightKept(s: Txn, level: nat)
    requires CanCut(s, level)
    ensures var t, right := CutRight(s, level), s.supply[0];
            Kept(s, t, {}) && right !in s.pages && right !in t.supply
  {
    assert s.supply[0] in s.supply && s.supply[0] !in s.supply[1..];
  }

  lemma {:induction false} CutLeftKept(s: Txn, no: nat, m: nat)
    requires StoreOk(s) && no in s.pages && s.pages[no].Branch? && CanOwn(s, no)
    requires 1 <= m <= |s.pages[no].keys| && |s.pages[no].ptrs| == |s.pages[no].keys| + 1
    ensures var (t, left) := CutLeft(s, no, m);
            Kept(s, t, {no}) && (left == no || left !in s.pages) && t == s.(supply := t.supply, pages := t.pages, gc := t.gc)
  {
    OwnedKept(s, no);
    var (t, left) := Owned(s, no);
    PageKept(t, left, CutLeft(s, no, m).0.pages[left]);
    KeptTrans(s, t, CutLeft(s, no, m).0, {no}, {left});
  }

  lemma {:induction false} CutBranchKept(s: Txn, level: nat, key: nat)
    requires CanCut(s, level) && Agrees(s, level, key)
    ensures var h := CutBranch(s, level, key);
            && Kept(s, h.s, {s.path[level].no})
            && h.s == s.(supply := h.s.supply, pages := h.s.pages, gc := h.s.gc)
            && (h.left == s.path[level].no || h.left !in s.pages) && h.right !in s.pages
            && h.left in h.s.pages && h.right in h.s.pages
            && h.s.pages[h.left].xid == s.xid == h.s.pages[h.right].xid
  {
    var no := s.path[level].no;
    var r, m := CutRight(s, level), Middle(s.pages[no].keys);
    CutRightKept(s, level);
    CutLeftKept(r, no, m);
    var (t, left) := CutLeft(r, no, m);
    KeptTrans(s, r, t, {no}, {no});
    var h := CutBranch(s, level, key);
    PageKept(t, h.half, h.s.pages[h.half]);
    KeptTrans(s, t, h.s, {no}, {h.half});
  }

  lemma {:induction false} CutBranchHalf(s: Txn, level: nat, key: nat)
    requires CanCut(s, level) && Agrees(s, level, key)
    ensures var h := CutBranch(s, level, key);
            && h.half in {h.left, h.right}
            && BranchAt(h.s.pages, h.half, h.idx + 1) && h.s.pages[h.half].xid == s.xid
            && h.half !in PathNos(s, level + 1)
            && Safe(h.s, level + 1)
  {
    CutBranchKept(s, level, key);
    var h := CutBranch(s, level, key);
    assert s.path[level].no !in PathNos(s, level + 1);
    forall i | level + 1 <= i < |s.path| ensures BranchAt(h.s.pages, s.path[i].no, s.path[i].pindex) {
      assert s.path[i].no in PathNos(s, level + 1);
    }
  }

  lemma {:induction false} AgreesKept(s: Txn, t: Txn, level: nat, key: nat)
    requires level <= |s.path| && Safe(s, level) && Safe(t, level) && s.o.branch >= 4
    requires Agrees(s, level, key) && t.path == s.path && t.o == s.o
    requires forall i | level <= i < |s.path| :: t.pages[s.path[i].no] == s.pages[s.path[i].no]
    ensures Agrees(t, level, key)
    decreases |s.path| - level
  {
    if level < |s.path| && FullAt(s, level) {
      AgreesKept(s, t, level + 1, Pivot(s.pages[s.path[level].no].keys));
    }
  }

  /** The path once the ancestors above have taken in both halves: through the half that gets the child. */
  function Rejoin(s: Txn, level: nat, h: Halves): Txn
    requires level + 1 < |s.path|
  {
    var up := s.path[level + 1];
    s.(path := s.path[level := Step(h.half, h.idx)]
                     [level + 1 := if h.half == h.left then up else Step(up.no, up.pindex + 1)])
  }

  lemma {:induction false} RejoinReady(s: Txn, level: nat, h: Halves, t: Txn)
    requires level < |s.path| && s.path == h.s.path
    requires Kept(s, h.s, PathNos(s, level)) && Safe(h.s, level + 1)
    requires BranchAt(h.s.pages, h.half, h.idx + 1) && h.s.pages[h.half].xid == s.xid
    requires h.half !in PathNos(s, level + 1)
    requires Grown(h.s, t, level + 1)
    ensures PairReady(Rejoin(t, level, h), level)
  {
    var u := Rejoin(t, level, h);
    assert PathNos(h.s, level + 1) == PathNos(s, level + 1);
    assert h.half in t.pages && t.pages[h.half] == h.s.pages[h.half];
    forall i | level + 1 <= i < |u.path| ensures BranchAt(u.pages, u.path[i].no, u.path[i].pindex) && u.path[i].no != h.half {
      assert u.path[i].no == t.path[i].no;
    }
  }

  /** SetPair on a state `u` reached from `s` by rewriting pages of the path from `level` up. */
  lemma {:induction false} PairGrown(s: Txn, u: Txn, level: nat, l: nat, r: nat, key: nat)
    requires PairReady(u, level) && Kept(s, u, PathNos(s, level))
    requires level <= |s.path| && u.path[..level] == s.path[..level]
    requires forall i | level <= i < |u.path| :: u.path[i].no in PathNos(s, level) || u.path[i].no !in s.pages
    ensures Grown(s, SetPair(u, level, l, r, key), level)
  {
    SetPairClimbed(u, level, l, r, key);
    var t := SetPair(u, level, l, r, key);
    KeptTrans(s, u, t, PathNos(s, level), PathNos(u, level));
    assert t.path[..level] == u.path[..level];
    forall i | level <= i < |t.path| ensures t.path[i].no in PathNos(s, level) || t.path[i].no !in s.pages {
      assert t.path[i].no == u.path[i].no || t.path[i].no !in u.pages;
    }
  }

  lemma {:induction false} RejoinPath(s: Txn, level: nat, h: Halves, t: Txn)
    requires level < |s.path| && s.path == h.s.path
    requires Kept(s, h.s, PathNos(s, level))
    requires h.half == s.path[level].no || h.half !in s.pages
    requires Grown(h.s, t, level + 1)
    ensures var u := Rejoin(t, level, h);
            && Kept(s, u, PathNos(s, level)) && u.path[..level] == s.path[..level]
            && (forall i | level <= i < |u.path| :: u.path[i].no in PathNos(s, level) || u.path[i].no !in s.pages)
  {
    var u := Rejoin(t, level, h);
    assert PathNos(h.s, level + 1) <= PathNos(s, level);
    KeptTrans(s, h.s, t, PathNos(s, level), PathNos(h.s, level + 1));
    assert t.path[..level] == t.path[..level + 1][..level];
    assert s.path[level].no in PathNos(s, level);
    forall i | level <= i < |u.path| ensures u.path[i].no in PathNos(s, level) || u.path[i].no !in s.pages {
      if i > level {
        assert u.path[i].no == t.path[i].no;
      }
    }
  }

  /** The result of taking in a pair at `level`. */
  ghost predicate Took(s: Txn, res: (Txn, bool), level: nat) {
    && Kept(s, res.0, PathNos(s, level))
    && (if res.1 then Grown(s, res.0, level) else res.0.failed)
  }

  /** Adds `r` after `l` in the branch at `level`, splitting it and its ancestors where they are full.
      Fails when the pages run out; a failure inside a climb to the root is only recorded. */
  function InsertIntoParent(s: Txn, level: nat, l: nat, r: nat, key: nat): (res: (Txn, bool))
    requires StoreOk(s) && level <= |s.path| && Safe(s, level) && Agrees(s, level, key)
    ensures Took(s, res, level)
    decreases |s.path| - level
  {
    hide Took;
    if level == |s.path| then
      if s.supply == [] then
        FailedTook(s, level);
        (s.(failed := true), false)
      else
        RootTook(s, l, r, key);
        (SetPair(RootAdded(s), level, l, r, key), true)
    else if FullAt(s, level) then
      if s.supply == [] then
        FailedTook(s, level);
        (s.(failed := true), false)
      else if !CanOwn(CutRight(s, level), s.path[level].no) then
        CutRightFailed(s, level);
        (CutRight(s, level).(failed := true), false)
      else
        var h := CutBranch(s, level, key);
        SplitEntry(s, level, key);
        var (t, ok) := InsertIntoParent(h.s, level + 1, h.left, h.right, Pivot(s.pages[s.path[level].no].keys));
        SplitTook(s, level, l, r, key, h, (t, ok));
        if !ok then (t, false) else (SetPair(Rejoin(t, level, h), level, l, r, key), true)
    else if !CanOwn(s, s.path[level].no) then
      FailedTook(s, level);
      (s.(failed := true), false)
    else
      WidenTook(s, level, l, r, key);
      (SetPair(Widen(s, level), level, l, r, key), true)
  }

  lemma {:induction false} FailedTook(s: Txn, level: nat)
    requires StoreOk(s) && s.supply == []
    ensures Took(s, (s.(failed := true), false), level)
  {
  }

  lemma {:induction false} RootTook(s: Txn, l: nat, r: nat, key: nat)
    requires StoreOk(s) && s.supply != []
    ensures PairReady(RootAdded(s), |s.path|)
    ensures Took(s, (SetPair(RootAdded(s), |s.path|, l, r, key), true), |s.path|)
  {
    RootAddedReady(s);
    PairGrown(s, RootAdded(s), |s.path|, l, r, key);
  }

  lemma {:induction false} WidenTook(s: Txn, level: nat, l: nat, r: nat, key: nat)
    requires StoreOk(s) && level < |s.path| && Safe(s, level) && CanOwn(s, s.path[level].no)
    ensures PairReady(Widen(s, level), level)
    ensures Took(s, (SetPair(Widen(s, level), level, l, r, key), true), level)
  {
    WidenReady(s, level);
    WidenPath(s, level);
    PairGrown(s, Widen(s, level), level, l, r, key);
  }

  lemma {:induction false} SplitTook(s: Txn, level: nat, l: nat, r: nat, key: nat, h: Halves, res: (Txn, bool))
    requires CanCut(s, level) && Agrees(s, level, key) && h == CutBranch(s, level, key)
    requires Took(h.s, res, level + 1)
    ensures !res.1 ==> Took(s, res, level)
    ensures res.1 ==> level + 1 < |res.0.path| && PairReady(Rejoin(res.0, level, h), level)
    ensures res.1 ==> Took(s, (SetPair(Rejoin(res.0, level, h), level, l, r, key), true), level)
  {
    hide CutBranch;
    hide SetPair;
    SplitEntry(s, level, key);
    if res.1 {
      RejoinReady(s, level, h, res.0);
      RejoinPath(s, level, h, res.0);
      PairGrown(s, Rejoin(res.0, level, h), level, l, r, key);
    } else {
      SplitFailed(s, level, h, res.0);
    }
  }

  lemma {:induction false} CutRightFailed(s: Txn, level: nat)
    requires StoreOk(s) && level < |s.path| && Safe(s, level) && |s.supply| == 1
    ensures Took(s, (CutRight(s, level).(failed := true), false), level)
  {
    assert s.supply[0] in s.supply && s.supply[0] !in s.supply[1..];
  }

  lemma {:induction false} SplitEntry(s: Txn, level: nat, key: nat)
    requires CanCut(s, level) && Agrees(s, level, key)
    ensures var h := CutBranch(s, level, key);
            && StoreOk(h.s) && h.s.path == s.path && Safe(h.s, level + 1)
            && Agrees(h.s, level + 1, Pivot(s.pages[s.path[level].no].keys))
            && Kept(s, h.s, PathNos(s, level))
            && BranchAt(h.s.pages, h.half, h.idx + 1) && h.s.pages[h.half].xid == s.xid
            && h.half !in PathNos(s, level + 1)
            && (h.half == s.path[level].no || h.half !in s.pages)
  {
    CutBranchKept(s, level, key);
    CutBranchHalf(s, level, key);
    var h := CutBranch(s, level, key);
    assert {s.path[level].no} <= PathNos(s, level);
    forall i | level + 1 <= i < |s.path| ensures h.s.pages[s.path[i].no] == s.pages[s.path[i].no] {
      assert s.path[i].no != s.path[level].no;
    }
    AgreesKept(s, h.s, level + 1, Pivot(s.pages[s.path[level].no].keys));
  }

  lemma {:induction false} SplitFailed(s: Txn, level: nat, h: Halves, t: Txn)
    requires level < |s.path| && s.path == h.s.path
    requires Kept(s, h.s, PathNos(s, level)) && Kept(h.s, t, PathNos(h.s, level + 1))
    ensures Kept(s, t, PathNos(s, level))
  {
    assert PathNos(h.s, level + 1) <= PathNos(s, level);
    KeptTrans(s, h.s, t, PathNos(s, level), PathNos(h.s, level + 1));
  }

  lemma {:induction false} WidenPath(s: Txn, level: nat)
    requires StoreOk(s) && level < |s.path| && Safe(s, level)
    requires CanOwn(s, s.path[level].no)
    ensures var u := Widen(s, level);
            && u.path[..level] == s.path[..level]
            && (forall i | level <= i < |u.path| :: u.path[i].no in PathNos(s, level) || u.path[i].no !in s.pages)
  {
    WidenReady(s, level);
    var u := Widen(s, level);
    forall i | level <= i < |u.path| ensures u.path[i].no in PathNos(s, level) || u.path[i].no !in s.pages {
      assert s.path[i].no in PathNos(s, level);
    }
  }
}
