/** What an edit costs: how many pages of the supply it takes, and that it succeeds exactly when there are as many. */
module BptCost {
  import opened BptTree
  import opened BptGrow
  import opened BptLeaf
  import opened BptStore
  import opened BptInsert
  import opened BptInsertFrames
  import opened BptInsertSplit
  import opened BptSet
  import opened BptPut
  import opened BptOutcome

  /** With `n` pages in the supply the step takes the first `n` of them and does not fail; with fewer it fails, having
      taken all. Whatever it takes is a page of the store then. */
  ghost predicate Paid(s: Txn, t: Txn, n: nat) {
    && (if |s.supply| >= n then t.failed == s.failed && t.supply == s.supply[n..] else t.failed && t.supply == [])
    && s.pages.Keys <= t.pages.Keys && forall p | p in s.supply :: p in t.supply || p in t.pages
  }

  lemma {:induction false} PaidNone(s: Txn, t: Txn)
    requires t.supply == s.supply && t.failed == s.failed && s.pages.Keys <= t.pages.Keys
    ensures Paid(s, t, 0)
  {
  }

  lemma {:induction false} PaidTrans(s: Txn, t: Txn, u: Txn, m: nat, n: nat)
    requires Paid(s, t, m) && Paid(t, u, n)
    ensures Paid(s, u, m + n)
  {
  }

  /** Once the pages have run out, nothing more can be taken. */
  lemma {:induction false} PaidShort(s: Txn, t: Txn, m: nat, n: nat)
    requires Paid(s, t, m + n) && |s.supply| < m
    ensures Paid(s, t, m)
  {
  }

  /** 1 for a page of an older transaction. */
  function Due(s: Txn, no: nat): nat {
    if no in s.pages && s.pages[no].xid == s.xid then 0 else 1
  }

  /** The pages of older transactions on the path from `level` up. */
  function Dues(s: Txn, level: nat): nat
    requires level <= |s.path|
    decreases |s.path| - level
  {
    if level == |s.path| then 0 else Due(s, s.path[level].no) + Dues(s, level + 1)
  }

  /** Two transactions agree on who owns the pages of the path from `level` up. */
  ghost predicate SameDues(s: Txn, t: Txn, level: nat) {
    |s.path| == |t.path| && forall i | level <= i < |s.path| :: Due(t, t.path[i].no) == Due(s, s.path[i].no)
  }

  lemma {:induction false} DuesSame(s: Txn, t: Txn, level: nat)
    requires level <= |s.path| && SameDues(s, t, level)
    ensures Dues(t, level) == Dues(s, level)
    decreases |s.path| - level
  {
    if level < |s.path| {
      DuesSame(s, t, level + 1);
    }
  }

  lemma {:induction false} OwnedPaid(s: Txn, no: nat)
    requires StoreOk(s) && no in s.pages && CanOwn(s, no)
    ensures Paid(s, Owned(s, no).0, Due(s, no))
  {
  }

  lemma {:induction false} FailedPaid(s: Txn, n: nat)
    requires s.supply == [] && n > 0
    ensures Paid(s, s.(failed := true), n)
  {
  }

  lemma {:induction false} AttachPaid(s: Txn, level: nat, n: nat, idx: nat)
    requires StoreOk(s) && level < |s.path| && Safe(s, level)
    requires BranchAt(s.pages, s.path[level].no, idx) && CanOwn(s, s.path[level].no)
    ensures var t := Attach(s, level, n, idx);
            && Paid(s, t, Due(s, s.path[level].no)) && SameDues(s, t, level + 1) && |t.path| == |s.path| && Due(t, t.path[level].no) == 0
  {
    AttachKept(s, level, n, idx);
    OwnedPaid(s, s.path[level].no);
    var t := Attach(s, level, n, idx);
    forall i | level + 1 <= i < |s.path| ensures Due(t, t.path[i].no) == Due(s, s.path[i].no) {
      assert t.path[i] == s.path[i] && s.path[i].no != s.path[level].no;
    }
  }

  /** A climb costs one page for each ancestor of an older transaction, and leaves none of them. */
  lemma {:induction false} SetNodePaid(s: Txn, level: nat, n: nat, idx: nat)
    requires StoreOk(s) && level <= |s.path| && Safe(s, level)
    requires level < |s.path| ==> BranchAt(s.pages, s.path[level].no, idx)
    ensures var (t, ok) := SetNode(s, level, n, idx);
            && Paid(s, t, Dues(s, level)) && (ok <==> |s.supply| >= Dues(s, level))
            && |t.path| == |s.path| && (ok ==> Dues(t, level) == 0)
    decreases |s.path| - level
  {
    hide Paid;
    hide Safe;
    hide StoreOk;
    hide Attach;
    hide SameDues;
    hide Climbed;
    if level == |s.path| {
      RootPaid(s, n);
    } else {
      SafeHere(s, level);
      if !CanOwn(s, s.path[level].no) {
        FailedPaid(s, Dues(s, level));
      } else {
        AttachKept(s, level, n, idx);
        AttachPaid(s, level, n, idx);
        var t := Attach(s, level, n, idx);
        NextSafe(t, level);
        SetNodePaid(t, level + 1, t.path[level].no, UpIndex(t, level));
        DuesSame(s, t, level + 1);
        var (u, ok) := SetNode(t, level + 1, t.path[level].no, UpIndex(t, level));
        PaidTrans(s, t, u, Due(s, s.path[level].no), Dues(t, level + 1));
        PaidLeft(s, t, Due(s, s.path[level].no));
        SetNodeClimbed(t, level + 1, t.path[level].no, UpIndex(t, level));
        StillOwned(t, level, u);
      }
    }
  }

  lemma {:induction false} RootPaid(s: Txn, n: nat)
    ensures Paid(s, s.(root := Some(n)), 0)
  {
  }

  lemma {:induction false} SafeHere(s: Txn, level: nat)
    requires Safe(s, level) && level < |s.path|
    ensures s.path[level].no in s.pages
  {
  }

  lemma {:induction false} NextSafe(t: Txn, level: nat)
    requires Safe(t, level) && level < |t.path|
    ensures Safe(t, level + 1) && (level + 1 < |t.path| ==> BranchAt(t.pages, t.path[level + 1].no, UpIndex(t, level)))
  {
  }

  lemma {:induction false} PaidLeft(s: Txn, t: Txn, n: nat)
    requires Paid(s, t, n) && |s.supply| >= n
    ensures |t.supply| == |s.supply| - n && t.failed == s.failed
  {
  }

  lemma {:induction false} StillOwned(t: Txn, level: nat, u: Txn)
    requires level < |t.path| && StoreOk(t) && Safe(t, level) && Climbed(t, u, level + 1) && Due(t, t.path[level].no) == 0
    ensures |u.path| == |t.path| && Due(u, u.path[level].no) == 0
  {
    assert t.path[level].no !in PathNos(t, level + 1);
  }

  // ---- a pair hung into the ancestors

  lemma {:induction false} SetKeyPaid(s: Txn, no: nat, i: nat, key: nat, level: nat)
    requires no in s.pages && s.pages[no].Branch? && i < |s.pages[no].keys| && level <= |s.path|
    ensures Paid(s, SetKey(s, no, i, key), 0) && Dues(SetKey(s, no, i, key), level) == Dues(s, level)
  {
    PaidNone(s, SetKey(s, no, i, key));
    DuesSame(s, SetKey(s, no, i, key), level);
  }

  /** Both climbs together cost what the first does. */
  lemma {:induction false} SetPairPaid(s: Txn, level: nat, l: nat, r: nat, key: nat)
    requires PairReady(s, level)
    ensures var t := SetPair(s, level, l, r, key);
            && Paid(s, t, Dues(s, level)) && |t.path| == |s.path| && (|s.supply| >= Dues(s, level) ==> Dues(t, level) == 0)
  {
    hide Paid;
    hide Dues;
    hide Safe;
    hide StoreOk;
    hide SetNode;
    hide Climbed;
    var i := s.path[level].pindex;
    PairSafe(s, level);
    SetNodeAt(s, level, l, i);
    SetNodePaid(s, level, l, i);
    var s1 := SetNode(s, level, l, i).0;
    var v := Halfway(s, level, l, key);
    SetKeyPaid(s1, s.path[level].no, i, key, level);
    HalfwayReady(s, level, l, key);
    PairSafe(v, level);
    SetNodePaid(v, level, r, i + 1);
    PaidTrans(s, s1, v, Dues(s, level), 0);
    PaidTrans(s, v, SetPair(s, level, l, r, key), Dues(s, level), Dues(v, level));
    if |s.supply| < Dues(s, level) {
      PaidShort(s, SetPair(s, level, l, r, key), Dues(s, level), Dues(v, level));
    }
  }

  lemma {:induction false} PairSafe(s: Txn, level: nat)
    requires PairReady(s, level)
    ensures BranchAt(s.pages, s.path[level].no, s.path[level].pindex) && BranchAt(s.pages, s.path[level].no, s.path[level].pindex + 1)
    ensures Safe(s, level) && StoreOk(s) && level < |s.path|
  {
  }

  // ---- insert_into_parent

  /** The pages insert_into_parent takes at `level`. */
  function Price(s: Txn, level: nat): nat
    requires level <= |s.path| && Safe(s, level)
    decreases |s.path| - level
  {
    if level == |s.path| then 1
    else if !FullAt(s, level) then Dues(s, level)
    else 1 + Due(s, s.path[level].no) + Price(s, level + 1)
  }

  lemma {:induction false} PriceSame(s: Txn, t: Txn, level: nat)
    requires level <= |s.path| && Safe(s, level) && Safe(t, level) && t.path == s.path && t.o == s.o && t.xid == s.xid
    requires forall i | level <= i < |s.path| :: t.pages[s.path[i].no] == s.pages[s.path[i].no]
    ensures Price(t, level) == Price(s, level)
    decreases |s.path| - level
  {
    if level < |s.path| {
      DuesSame(s, t, level);
      if FullAt(s, level) {
        PriceSame(s, t, level + 1);
      }
    }
  }

  lemma {:induction false} RootAddedPaid(s: Txn)
    requires StoreOk(s) && s.supply != []
    ensures Paid(s, RootAdded(s), 1) && Dues(RootAdded(s), |s.path|) == 0
  {
    var t := RootAdded(s);
    assert t.path[|s.path|].no == s.supply[0] && t.pages[s.supply[0]].xid == t.xid;
    assert Dues(t, |s.path|) == Due(t, s.supply[0]) + Dues(t, |s.path| + 1);
  }

  lemma {:induction false} WidenPaid(s: Txn, level: nat)
    requires StoreOk(s) && level < |s.path| && Safe(s, level) && CanOwn(s, s.path[level].no)
    ensures var t := Widen(s, level); Paid(s, t, Due(s, s.path[level].no)) && |t.path| == |s.path| && Dues(t, level) == Dues(s, level + 1)
  {
    var t, no := Widen(s, level), s.path[level].no;
    OwnedPaid(s, no);
    OwnedKept(s, no);
    forall i | level + 1 <= i < |s.path| ensures Due(t, t.path[i].no) == Due(s, s.path[i].no) {
      assert t.path[i] == s.path[i] && s.path[i].no != no;
    }
    DuesSame(s, t, level + 1);
    assert Due(t, t.path[level].no) == 0;
  }

  lemma {:induction false} CutPaid(s: Txn, level: nat, key: nat)
    requires CanCut(s, level) && Agrees(s, level, key)
    ensures var h := CutBranch(s, level, key);
            && Paid(s, h.s, 1 + Due(s, s.path[level].no)) && h.s.path == s.path && Safe(h.s, level + 1)
            && Price(h.s, level + 1) == Price(s, level + 1) && Due(h.s, h.half) == 0
            && |s.supply| >= 1 + Due(s, s.path[level].no)
  {
    CutBranchKept(s, level, key);
    CutBranchHalf(s, level, key);
    var h, no := CutBranch(s, level, key), s.path[level].no;
    CutSupply(s, level, key);
    forall i | level + 1 <= i < |s.path| ensures h.s.pages[s.path[i].no] == s.pages[s.path[i].no] {
      assert s.path[i].no != no && s.path[i].no in s.pages;
    }
    PriceSame(s, h.s, level + 1);
  }

  lemma {:induction false} CutSupply(s: Txn, level: nat, key: nat)
    requires CanCut(s, level) && Agrees(s, level, key)
    ensures var h := CutBranch(s, level, key);
            Paid(s, h.s, 1 + Due(s, s.path[level].no)) && |s.supply| >= 1 + Due(s, s.path[level].no)
  {
    var no := s.path[level].no;
    var r := CutRight(s, level);
    CutRightKept(s, level);
    assert Paid(s, r, 1);
    OwnedPaid(r, no);
    var t := Owned(r, no).0;
    PaidTrans(s, r, t, 1, Due(r, no));
    var h := CutBranch(s, level, key);
    assert h.s.supply == t.supply && h.s.failed == t.failed && t.pages.Keys <= h.s.pages.Keys;
    PaidNone(t, h.s);
    PaidTrans(s, t, h.s, 1 + Due(r, no), 0);
  }

  lemma {:induction false} CutShortPaid(s: Txn, level: nat, n: nat)
    requires StoreOk(s) && s.supply != [] && level < |s.path| && Safe(s, level) && n >= 1 + Due(s, s.path[level].no)
    requires !CanOwn(CutRight(s, level), s.path[level].no)
    ensures Paid(s, CutRight(s, level).(failed := true), n) && |s.supply| < n
  {
    assert s.supply[0] !in s.pages by { assert s.supply[0] in s.supply; }
  }

  lemma {:induction false} RejoinDues(t: Txn, level: nat, h: Halves)
    requires level + 1 < |t.path| && Dues(t, level + 1) == 0 && Due(t, h.half) == 0
    ensures |Rejoin(t, level, h).path| == |t.path| && Dues(Rejoin(t, level, h), level) == 0 && Paid(t, Rejoin(t, level, h), 0)
  {
    var u := Rejoin(t, level, h);
    forall i | level + 1 <= i < |t.path| ensures Due(u, u.path[i].no) == Due(t, t.path[i].no) {
      assert u.path[i].no == t.path[i].no;
    }
    DuesSame(t, u, level + 1);
    assert u.path[level].no == h.half;
  }

  /** The whole cascade takes its price, and leaves no ancestor of an older transaction. */
  lemma {:induction false} InsertPaid(s: Txn, level: nat, l: nat, r: nat, key: nat)
    requires StoreOk(s) && level <= |s.path| && Safe(s, level) && Agrees(s, level, key)
    ensures var (t, ok) := InsertIntoParent(s, level, l, r, key);
            Paid(s, t, Price(s, level)) && (|s.supply| >= Price(s, level) ==> ok && level < |t.path| && Dues(t, level) == 0)
    decreases |s.path| - level
  {
    hide Paid;
    hide Dues;
    hide SetPair;
    hide CutBranch;
    hide Widen;
    hide RootAdded;
    hide Rejoin;
    if level == |s.path| {
      if s.supply == [] {
        FailedPaid(s, 1);
      } else {
        RootTook(s, l, r, key);
        RootAddedPaid(s);
        SetPairPaid(RootAdded(s), level, l, r, key);
        PaidTrans(s, RootAdded(s), SetPair(RootAdded(s), level, l, r, key), 1, 0);
      }
    } else if FullAt(s, level) {
      InsertFullPaid(s, level, l, r, key);
    } else if !CanOwn(s, s.path[level].no) {
      DuesOf(s, level);
      FailedPaid(s, Dues(s, level));
    } else {
      DuesOf(s, level);
      WidenTook(s, level, l, r, key);
      WidenPaid(s, level);
      SetPairPaid(Widen(s, level), level, l, r, key);
      PaidTrans(s, Widen(s, level), SetPair(Widen(s, level), level, l, r, key), Due(s, s.path[level].no), Dues(s, level + 1));
      if |s.supply| >= Dues(s, level) {
        PaidThen(s, Widen(s, level), Due(s, s.path[level].no), Dues(s, level + 1));
      }
    }
  }

  lemma {:induction false} DuesOf(s: Txn, level: nat)
    requires level < |s.path|
    ensures Dues(s, level) == Due(s, s.path[level].no) + Dues(s, level + 1)
  {
  }

  lemma {:induction false} PaidThen(s: Txn, t: Txn, n: nat, m: nat)
    requires Paid(s, t, n) && |s.supply| >= n + m
    ensures |t.supply| >= m
  {
  }

  lemma {:induction false} UnfoldFull(s: Txn, level: nat, l: nat, r: nat, key: nat)
    requires StoreOk(s) && level < |s.path| && Safe(s, level) && Agrees(s, level, key) && FullAt(s, level)
    ensures s.supply == [] ==> InsertIntoParent(s, level, l, r, key) == (s.(failed := true), false)
    ensures s.supply != [] && !CanOwn(CutRight(s, level), s.path[level].no) ==>
              InsertIntoParent(s, level, l, r, key) == (CutRight(s, level).(failed := true), false)
    ensures s.supply != [] && CanOwn(CutRight(s, level), s.path[level].no) ==>
              var h, pivot := CutBranch(s, level, key), Pivot(s.pages[s.path[level].no].keys);
              && StoreOk(h.s) && h.s.path == s.path && Safe(h.s, level + 1) && Agrees(h.s, level + 1, pivot)
              && h.half in h.s.pages && h.half !in PathNos(s, level + 1)
              && var (t, ok) := InsertIntoParent(h.s, level + 1, h.left, h.right, pivot);
              && Took(h.s, (t, ok), level + 1)
              && (ok ==> level + 1 < |t.path| && PairReady(Rejoin(t, level, h), level))
              && InsertIntoParent(s, level, l, r, key) == if !ok then (t, false) else (SetPair(Rejoin(t, level, h), level, l, r, key), true)
  {
    hide SetPair;
    hide CutBranch;
    hide Rejoin;
    hide Took;
    hide PairReady;
    hide Kept;
    if s.supply != [] && CanOwn(CutRight(s, level), s.path[level].no) {
      var h, pivot := CutBranch(s, level, key), Pivot(s.pages[s.path[level].no].keys);
      SplitEntry(s, level, key);
      SplitTook(s, level, l, r, key, h, InsertIntoParent(h.s, level + 1, h.left, h.right, pivot));
    }
  }

  lemma {:induction false} InsertFullPaid(s: Txn, level: nat, l: nat, r: nat, key: nat)
    requires StoreOk(s) && level < |s.path| && Safe(s, level) && Agrees(s, level, key) && FullAt(s, level)
    ensures var (t, ok) := InsertIntoParent(s, level, l, r, key);
            Paid(s, t, Price(s, level)) && (|s.supply| >= Price(s, level) ==> ok && level < |t.path| && Dues(t, level) == 0)
    decreases |s.path| - level, 0
  {
    hide Paid;
    hide Dues;
    hide SetPair;
    hide CutBranch;
    hide Rejoin;
    hide InsertIntoParent;
    hide Took;
    hide PairReady;
    hide Agrees;
    var no := s.path[level].no;
    var first := 1 + Due(s, no);
    UnfoldFull(s, level, l, r, key);
    if s.supply == [] {
      FailedPaid(s, Price(s, level));
    } else if !CanOwn(CutRight(s, level), no) {
      CutShortPaid(s, level, Price(s, level));
    } else {
      var h, pivot := CutBranch(s, level, key), Pivot(s.pages[no].keys);
      CutPaid(s, level, key);
      InsertPaid(h.s, level + 1, h.left, h.right, pivot);
      var (t, ok) := InsertIntoParent(h.s, level + 1, h.left, h.right, pivot);
      AfterCut(s, level, h, t, ok, l, r, key, first, Price(s, level + 1));
    }
  }

  /** The rest of a split once the ancestors above have taken in both halves. */
  lemma {:induction false} AfterCut(s: Txn, level: nat, h: Halves, t: Txn, ok: bool, l: nat, r: nat, key: nat, first: nat, price: nat)
    requires level < |s.path| && h.s.path == s.path && h.half !in PathNos(s, level + 1) && h.half in h.s.pages && Due(h.s, h.half) == 0
    requires Paid(s, h.s, first) && Paid(h.s, t, price) && Took(h.s, (t, ok), level + 1)
    requires |h.s.supply| >= price ==> ok && level + 1 < |t.path| && Dues(t, level + 1) == 0
    requires ok ==> level + 1 < |t.path| && PairReady(Rejoin(t, level, h), level)
    ensures Paid(s, t, first + price) && (|s.supply| >= first + price ==> ok)
    ensures ok ==>
              var v := SetPair(Rejoin(t, level, h), level, l, r, key);
              Paid(s, v, first + price) && (|s.supply| >= first + price ==> level < |v.path| && Dues(v, level) == 0)
  {
    hide Paid;
    hide Dues;
    hide SetPair;
    hide Rejoin;
    hide PairReady;
    hide Grown;
    PaidTrans(s, h.s, t, first, price);
    if |s.supply| >= first + price {
      PaidThen(s, h.s, first, price);
    }
    if ok {
      var u := Rejoin(t, level, h);
      var v := SetPair(u, level, l, r, key);
      PairSafe(u, level);
      SetPairPaid(u, level, l, r, key);
      RejoinPaid(t, level, h);
      PaidTrans(s, t, u, first + price, 0);
      PaidTrans(s, u, v, first + price, Dues(u, level));
      if |s.supply| >= first + price {
        HalfStill(s, h, t, level);
        RejoinDues(t, level, h);
      } else {
        PaidShort(s, v, first + price, Dues(u, level));
      }
    }
  }

  lemma {:induction false} RejoinPaid(t: Txn, level: nat, h: Halves)
    requires level + 1 < |t.path|
    ensures Paid(t, Rejoin(t, level, h), 0)
  {
  }

  lemma {:induction false} HalfStill(s: Txn, h: Halves, t: Txn, level: nat)
    requires level < |s.path| && h.s.path == s.path && h.half !in PathNos(s, level + 1) && Grown(h.s, t, level + 1)
    requires h.half in h.s.pages && Due(h.s, h.half) == 0
    ensures Due(t, h.half) == 0 && level + 1 < |t.path|
  {
    assert PathNos(h.s, level + 1) == PathNos(s, level + 1);
  }

  // ---- the edits of a leaf

  lemma {:induction false} SetLeafPaid(s: Txn, leaf: nat, idx: nat)
    requires StoreOk(s) && Safe(s, 0) && LeafAt(s, leaf) && s.pages[leaf].ents != [] && s.pages[leaf].xid == s.xid
    ensures Paid(s, SetLeaf(s, leaf, idx), Dues(s, 0))
  {
    hide Paid;
    hide Dues;
    hide SetNode;
    SetNodeClimbed(s, 0, leaf, LeafIndex(s));
    SetNodePaid(s, 0, leaf, LeafIndex(s));
    var (t, ok) := SetNode(s, 0, leaf, LeafIndex(s));
    if ok && idx == 0 && t.path != [] && t.path[0].pindex > 0 {
      SetKeyPaid(t, t.path[0].no, t.path[0].pindex - 1, s.pages[leaf].ents[0].key, 0);
      PaidTrans(s, t, SetLeaf(s, leaf, idx), Dues(s, 0), 0);
    }
  }

  lemma {:induction false} FirstPaid(s: Txn, e: Entry)
    requires StoreOk(s) && s.path == []
    ensures Paid(s, PutFirst(s, e).s, 1) && PutFirst(s, e).s.path == []
  {
    if s.supply == [] {
      FailedPaid(s, 1);
    } else {
      var b := s.supply[0];
      assert b in s.supply && b !in s.supply[1..];
      var t := WriteLeaf(s.(supply := s.supply[1..]), b, [e]);
      SetLeafPaid(t, b, 0);
      PaidTrans(s, t, SetLeaf(t, b, 0), 1, 0);
    }
  }

  /** A page of the store that is not on the path, owned and written. */
  lemma {:induction false} LeafOwned(s: Txn, leaf: nat, ents: seq<Entry>)
    requires StoreOk(s) && Safe(s, 0) && LeafAt(s, leaf) && CanOwn(s, leaf)
    ensures var (t, no) := Owned(s, leaf);
            var u := WriteLeaf(t, no, ents);
            Paid(s, u, Due(s, leaf)) && u.path == s.path && Dues(u, 0) == Dues(s, 0)
  {
    OwnedPaid(s, leaf);
    OwnedKept(s, leaf);
    var (t, no) := Owned(s, leaf);
    var u := WriteLeaf(t, no, ents);
    PaidNone(t, u);
    PaidTrans(s, t, u, Due(s, leaf), 0);
    forall i | 0 <= i < |s.path| ensures Due(u, u.path[i].no) == Due(s, s.path[i].no) {
      assert BranchAt(s.pages, s.path[i].no, s.path[i].pindex);
    }
    DuesSame(s, u, 0);
  }

  lemma {:induction false} RoomPaid(s: Txn, leaf: nat, idx: nat, e: Entry, replace: bool)
    requires StoreOk(s) && Safe(s, 0) && LeafAt(s, leaf)
    requires idx <= |s.pages[leaf].ents| && (replace ==> idx < |s.pages[leaf].ents|)
    ensures Paid(s, PutRoom(s, leaf, idx, e, replace).s, Due(s, leaf) + Dues(s, 0))
  {
    hide Paid;
    hide Dues;
    hide SetLeaf;
    if !CanOwn(s, leaf) {
      FailedPaid(s, Due(s, leaf) + Dues(s, 0));
    } else {
      OwnedSafe(s, leaf);
      var (s1, no) := Owned(s, leaf);
      var ents := NewEntries(s.pages[leaf].ents, idx, e, replace);
      WriteLeafKept(s1, no, ents);
      LeafOwned(s, leaf, ents);
      SetLeafPaid(WriteLeaf(s1, no, ents), no, idx);
      PaidTrans(s, WriteLeaf(s1, no, ents), PutRoom(s, leaf, idx, e, replace).s, Due(s, leaf), Dues(s, 0));
    }
  }

  lemma {:induction false} DelPaid(s: Txn, leaf: nat, idx: nat)
    requires StoreOk(s) && Safe(s, 0) && LeafAt(s, leaf) && idx < |s.pages[leaf].ents|
    ensures Paid(s, DelAt(s, leaf, idx).s, if s.pages[leaf].xid == s.xid then 0 else 1 + Dues(s, 0))
  {
    hide Paid;
    hide Dues;
    hide SetNode;
    var ents := RemoveAt(s.pages[leaf].ents, idx);
    if s.pages[leaf].xid == s.xid {
      PaidNone(s, WriteLeaf(s, leaf, ents));
    } else if s.supply == [] {
      FailedPaid(s, 1 + Dues(s, 0));
    } else {
      OwnedSafe(s, leaf);
      OwnedPaid(s, leaf);
      LeafOwned(s, leaf, s.pages[leaf].ents);
      var (s1, no) := Owned(s, leaf);
      DuesOwned(s, s1, no, s.pages[leaf].ents);
      SetNodePaid(s1, 0, no, LeafIndex(s1));
      var (t, ok) := SetNode(s1, 0, no, LeafIndex(s1));
      PaidTrans(s, s1, t, 1, Dues(s, 0));
      if ok {
        PaidNone(t, WriteLeaf(t, no, ents));
        PaidTrans(s, t, WriteLeaf(t, no, ents), 1 + Dues(s, 0), 0);
      }
    }
  }

  lemma {:induction false} DuesOwned(s: Txn, t: Txn, no: nat, ents: seq<Entry>)
    requires WriteLeaf(t, no, ents).path == s.path && Dues(WriteLeaf(t, no, ents), 0) == Dues(s, 0) && t.path == s.path
    requires no in t.pages && t.pages[no] == Leaf(t.xid, ents)
    ensures Dues(t, 0) == Dues(s, 0)
  {
    assert WriteLeaf(t, no, ents) == t;
  }

  // ---- a leaf split

  lemma {:induction false} HalvePaid(s: Txn, leaf: nat, mid: nat)
    requires StoreOk(s) && Safe(s, 0) && LeafAt(s, leaf) && CanHalve(s, leaf) && mid <= |s.pages[leaf].ents|
    ensures var t := HalveLeaf(s, leaf, mid).0;
            && Paid(s, t, 1 + Due(s, leaf)) && t.path == s.path && Safe(t, 0) && Price(t, 0) == Price(s, 0)
            && |s.supply| >= 1 + Due(s, leaf)
  {
    HalfRightKept(s, leaf, mid);
    HalveLeafKept(s, leaf, mid);
    var r := HalfRight(s, leaf, mid);
    assert Paid(s, r, 1);
    LeafOwned(r, leaf, s.pages[leaf].ents[..mid]);
    var t := HalveLeaf(s, leaf, mid).0;
    assert s.supply[0] in s.supply;
    PaidTrans(s, r, t, 1, Due(r, leaf));
    forall i | 0 <= i < |s.path| ensures t.pages[s.path[i].no] == s.pages[s.path[i].no] {
      assert BranchAt(s.pages, s.path[i].no, s.path[i].pindex);
    }
    PriceSame(s, t, 0);
  }

  lemma {:induction false} FinishPaid(t: Txn, find: nat, goRight: bool, i: nat, e: Entry, idx: nat)
    requires StoreOk(t) && Safe(t, 0) && t.path != [] && Safe(NextStep(t), 0)
    requires LeafAt(t, find) && t.pages[find].xid == t.xid && i <= |t.pages[find].ents|
    ensures Paid(t, FinishSplit(t, find, goRight, i, e, idx).s, Dues(t, 0))
  {
    var u := if goRight then NextStep(t) else t;
    var ents := InsertAt(t.pages[find].ents, i, e);
    WriteLeafKept(u, find, ents);
    var v := WriteLeaf(u, find, ents);
    forall j | 0 <= j < |t.path| ensures Due(v, v.path[j].no) == Due(t, t.path[j].no) {
      assert BranchAt(t.pages, t.path[j].no, t.path[j].pindex);
    }
    DuesSame(t, v, 0);
    PaidNone(t, v);
    SetLeafPaid(v, find, idx);
    PaidTrans(t, v, SetLeaf(v, find, idx), 0, Dues(t, 0));
  }

  lemma {:induction false} SplitPaid(s: Txn, leaf: nat, idx: nat, key: nat, mid: nat, e: Entry)
    requires StoreOk(s) && Safe(s, 0) && LeafAt(s, leaf)
    requires idx <= |s.pages[leaf].ents| && 0 < mid < |s.pages[leaf].ents|
    requires CanHalve(s, leaf) ==>
               Safe(HalveLeaf(s, leaf, mid).0, 0) && HalveLeaf(s, leaf, mid).0.o.branch >= 4 &&
               Agrees(HalveLeaf(s, leaf, mid).0, 0, SplitKey(s.pages[leaf].ents, key, idx, mid))
    ensures Paid(s, PutSplit(s, leaf, idx, key, mid, e).s, 1 + Due(s, leaf) + Price(s, 0))
  {
    hide Paid;
    hide Dues;
    hide InsertIntoParent;
    hide FinishSplit;
    hide HalveLeaf;
    hide Agrees;
    hide Grown;
    var first, price := 1 + Due(s, leaf), Price(s, 0);
    if s.supply == [] {
      FailedPaid(s, first + price);
    } else if !CanHalve(s, leaf) {
      HalfShort(s, leaf, mid, first + price);
    } else {
      HalveLeafKept(s, leaf, mid);
      HalveLeafRight(s, leaf, mid);
      HalvePaid(s, leaf, mid);
      var (s1, left) := HalveLeaf(s, leaf, mid);
      var right, k := s.supply[0], SplitKey(s.pages[leaf].ents, key, idx, mid);
      HalvedPaid(s1, left, right, k, idx, mid, e);
      PaidTrans(s, s1, PutSplit(s, leaf, idx, key, mid, e).s, first, price);
    }
  }

  /** The rest of a split once both halves are on pages of their own. */
  lemma {:induction false} HalvedPaid(s: Txn, left: nat, right: nat, key: nat, idx: nat, mid: nat, e: Entry)
    requires StoreOk(s) && Safe(s, 0) && LeafAt(s, left) && LeafAt(s, right) && s.o.branch >= 4 && Agrees(s, 0, key)
    requires s.pages[left].xid == s.xid == s.pages[right].xid && |s.pages[left].ents| == mid && idx <= mid + |s.pages[right].ents|
    ensures var (t, ok) := InsertIntoParent(s, 0, left, right, key);
            && (!ok ==> Paid(s, t.(failed := true), Price(s, 0)))
            && (ok ==>
                  && t.path != [] && Safe(t, 0) && Safe(NextStep(t), 0) && StoreOk(t) && LeafAt(t, left) && LeafAt(t, right)
                  && t.pages[left] == s.pages[left] && t.pages[right] == s.pages[right] && t.xid == s.xid
                  && (idx < mid ==> Paid(s, FinishSplit(t, left, false, idx, e, idx).s, Price(s, 0)))
                  && (idx >= mid ==> Paid(s, FinishSplit(t, right, true, idx - mid, e, idx).s, Price(s, 0))))
  {
    hide Paid;
    hide Dues;
    hide Price;
    hide InsertIntoParent;
    hide FinishSplit;
    hide Grown;
    hide Agrees;
    InsertPaid(s, 0, left, right, key);
    var (t, ok) := InsertIntoParent(s, 0, left, right, key);
    if ok {
      GrownLeaf(s, t, left);
      GrownLeaf(s, t, right);
      if idx < mid {
        FinishPaid(t, left, false, idx, e, idx);
        AfterInsert(s, t, FinishSplit(t, left, false, idx, e, idx).s, Price(s, 0), Dues(t, 0));
      } else {
        FinishPaid(t, right, true, idx - mid, e, idx);
        AfterInsert(s, t, FinishSplit(t, right, true, idx - mid, e, idx).s, Price(s, 0), Dues(t, 0));
      }
    } else {
      FailedTwice(s, t, Price(s, 0));
    }
  }

  lemma {:induction false} AfterInsert(s: Txn, t: Txn, u: Txn, n: nat, m: nat)
    requires Paid(s, t, n) && Paid(t, u, m) && (|s.supply| >= n ==> m == 0)
    ensures Paid(s, u, n)
  {
    PaidTrans(s, t, u, n, m);
    if |s.supply| < n {
      PaidShort(s, u, n, m);
    }
  }

  lemma {:induction false} FailedTwice(s: Txn, t: Txn, n: nat)
    requires Paid(s, t, n) && |s.supply| < n
    ensures Paid(s, t.(failed := true), n)
  {
  }

  lemma {:induction false} HalfShort(s: Txn, leaf: nat, mid: nat, n: nat)
    requires StoreOk(s) && LeafAt(s, leaf) && s.supply != [] && !CanHalve(s, leaf) && mid <= |s.pages[leaf].ents| && n >= 2
    ensures Paid(s, HalfRight(s, leaf, mid).(failed := true), n)
  {
  }

  // ---- in terms of the tree

  /** The frames of a path that an older transaction wrote. */
  function OldFrames(fs: seq<Frame>, xid: nat): nat {
    if fs == [] then 0 else (if fs[0].xid == xid then 0 else 1) + OldFrames(fs[1..], xid)
  }

  lemma {:induction false} DuesFrames(s: Txn, from: nat, fs: seq<Frame>, hole: nat)
    requires Holds(s, from, fs, hole)
    ensures Dues(s, from) == OldFrames(fs, s.xid)
    decreases |fs|
  {
    if fs != [] {
      HoldsTail(s, from, fs, hole);
      DuesFrames(s, from + 1, fs[1..], fs[0].no);
    }
  }

  lemma {:induction false} PriceFrames(s: Txn, from: nat, fs: seq<Frame>, hole: nat)
    requires Holds(s, from, fs, hole) && Safe(s, from)
    ensures Price(s, from) == OldFrames(fs, s.xid) + Growth(fs, s.o)
    decreases |fs|
  {
    if fs != [] {
      HoldsTail(s, from, fs, hole);
      DuesFrames(s, from, fs, hole);
      PriceFrames(s, from + 1, fs[1..], fs[0].no);
    }
  }

  // ---- how far the tree grows

  lemma {:induction false} SetPairLength(s: Txn, level: nat, l: nat, r: nat, key: nat)
    requires PairReady(s, level)
    ensures |SetPair(s, level, l, r, key).path| == |s.path|
  {
    SetPairPaid(s, level, l, r, key);
  }

  lemma {:induction false} InsertLength(s: Txn, level: nat, l: nat, r: nat, key: nat)
    requires StoreOk(s) && level <= |s.path| && Safe(s, level) && Agrees(s, level, key)
    ensures |InsertIntoParent(s, level, l, r, key).0.path| <= |s.path| + 1
    decreases |s.path| - level
  {
    hide SetPair;
    hide CutBranch;
    hide Took;
    hide PairReady;
    if level == |s.path| {
      if s.supply != [] {
        RootTook(s, l, r, key);
        SetPairLength(RootAdded(s), level, l, r, key);
      }
    } else if FullAt(s, level) {
      InsertFullLength(s, level, l, r, key);
    } else if CanOwn(s, s.path[level].no) {
      WidenTook(s, level, l, r, key);
      SetPairLength(Widen(s, level), level, l, r, key);
    }
  }

  lemma {:induction false} InsertFullLength(s: Txn, level: nat, l: nat, r: nat, key: nat)
    requires StoreOk(s) && level < |s.path| && Safe(s, level) && Agrees(s, level, key) && FullAt(s, level)
    ensures |InsertIntoParent(s, level, l, r, key).0.path| <= |s.path| + 1
    decreases |s.path| - level, 0
  {
    hide SetPair;
    hide CutBranch;
    hide Took;
    hide PairReady;
    hide InsertIntoParent;
    hide Agrees;
    UnfoldFull(s, level, l, r, key);
    if s.supply != [] && CanOwn(CutRight(s, level), s.path[level].no) {
      var h, pivot := CutBranch(s, level, key), Pivot(s.pages[s.path[level].no].keys);
      InsertLength(h.s, level + 1, h.left, h.right, pivot);
      var (t, ok) := InsertIntoParent(h.s, level + 1, h.left, h.right, pivot);
      if ok {
        SetPairLength(Rejoin(t, level, h), level, l, r, key);
      }
    }
  }

  lemma {:induction false} SetLeafLength(s: Txn, leaf: nat, idx: nat)
    requires StoreOk(s) && Safe(s, 0) && LeafAt(s, leaf) && s.pages[leaf].ents != [] && s.pages[leaf].xid == s.xid
    ensures |SetLeaf(s, leaf, idx).path| == |s.path|
  {
    SetNodeClimbed(s, 0, leaf, LeafIndex(s));
    SetNodePaid(s, 0, leaf, LeafIndex(s));
  }

  lemma {:induction false} RoomLength(s: Txn, leaf: nat, idx: nat, e: Entry, replace: bool)
    requires StoreOk(s) && Safe(s, 0) && LeafAt(s, leaf)
    requires idx <= |s.pages[leaf].ents| && (replace ==> idx < |s.pages[leaf].ents|)
    ensures |PutRoom(s, leaf, idx, e, replace).s.path| == |s.path|
  {
    hide SetLeaf;
    if CanOwn(s, leaf) {
      OwnedSafe(s, leaf);
      var (s1, no) := Owned(s, leaf);
      var ents := NewEntries(s.pages[leaf].ents, idx, e, replace);
      WriteLeafKept(s1, no, ents);
      SetLeafLength(WriteLeaf(s1, no, ents), no, idx);
    }
  }

  lemma {:induction false} SplitLength(s: Txn, leaf: nat, idx: nat, key: nat, mid: nat, e: Entry)
    requires StoreOk(s) && Safe(s, 0) && LeafAt(s, leaf)
    requires idx <= |s.pages[leaf].ents| && 0 < mid < |s.pages[leaf].ents|
    requires CanHalve(s, leaf) ==>
               Safe(HalveLeaf(s, leaf, mid).0, 0) && HalveLeaf(s, leaf, mid).0.o.branch >= 4 &&
               Agrees(HalveLeaf(s, leaf, mid).0, 0, SplitKey(s.pages[leaf].ents, key, idx, mid))
    ensures |PutSplit(s, leaf, idx, key, mid, e).s.path| <= |s.path| + 1
  {
    hide InsertIntoParent;
    hide HalveLeaf;
    hide SetLeaf;
    hide Agrees;
    hide Grown;
    if CanHalve(s, leaf) {
      HalveLeafKept(s, leaf, mid);
      HalveLeafRight(s, leaf, mid);
      var (s1, left) := HalveLeaf(s, leaf, mid);
      var right, k := s.supply[0], SplitKey(s.pages[leaf].ents, key, idx, mid);
      InsertLength(s1, 0, left, right, k);
      var (t, ok) := InsertIntoParent(s1, 0, left, right, k);
      if ok {
        GrownLeaf(s1, t, left);
        GrownLeaf(s1, t, right);
        var find, i := if idx < mid then left else right, if idx < mid then idx else idx - mid;
        var u := if idx >= mid then NextStep(t) else t;
        var ents := InsertAt(t.pages[find].ents, i, e);
        WriteLeafKept(u, find, ents);
        SetLeafLength(WriteLeaf(u, find, ents), find, idx);
      }
    }
  }

  lemma {:induction false} OldFramesBound(fs: seq<Frame>, xid: nat, o: Orders)
    ensures OldFrames(fs, xid) <= |fs| && Growth(fs, o) <= |fs| + 1
  {
    if fs != [] {
      OldFramesBound(fs[1..], xid, o);
    }
  }
}
