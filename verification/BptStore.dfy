/** Rewriting the ancestors of a changed page, as values (lib/bpt.c set_node, insert_into_parent and the
    page handling of lib/txn.c). Pages of older transactions are copied before they change. */
module BptStore {
  import opened BptTree
  import opened BptGrow

  /** One ancestor of the cursor's leaf: its page and the child the path goes through. */
  datatype Step = Step(no: nat, pindex: nat)

  /** The part of a write transaction that editing one tree works on.
      `supply` are the pages ed_txn_alloc has still to hand out before ed_alloc fails, `gc` the
      discarded pages, `failed` is txn->error and `path` the parent chain of the cursor's leaf,
      innermost first. */
  datatype Txn = Txn(o: Orders, xid: nat, pages: map<nat, Page>, supply: seq<nat>, gc: seq<nat>,
                     failed: bool, root: Option<nat>, path: seq<Step>)

  // ---- what holds of every transaction, failed or not

  ghost predicate StoreOk(s: Txn) {
    && s.o.leaf >= 2 && s.o.branch >= 4
    && (forall p | p in s.pages :: s.pages[p].xid <= s.xid)
    && (forall p | p in s.supply :: p !in s.pages)
    && (forall i, j | 0 <= i < j < |s.supply| :: s.supply[i] != s.supply[j])
  }

  predicate BranchAt(pages: map<nat, Page>, no: nat, idx: nat) {
    no in pages && pages[no].Branch? && |pages[no].ptrs| == |pages[no].keys| + 1 && idx < |pages[no].ptrs|
  }

  /** Every ancestor from `level` up is a branch with the child the path names. */
  predicate Safe(s: Txn, level: nat) {
    && (forall i | level <= i < |s.path| :: BranchAt(s.pages, s.path[i].no, s.path[i].pindex))
    && (forall i, j | level <= i < j < |s.path| :: s.path[i].no != s.path[j].no)
  }

  function PathNos(s: Txn, level: nat): set<nat> {
    set i | level <= i < |s.path| :: s.path[i].no
  }

  /** No page of an older transaction differs, and owned pages stay owned. */
  ghost predicate CopyOnWrite(a: map<nat, Page>, b: map<nat, Page>, xid: nat) {
    forall p | p in a :: p in b && (if a[p].xid == xid then b[p].xid == xid else b[p] == a[p])
  }

  /** Only pages of `m` and pages new to the store may differ. */
  ghost predicate Confined(a: map<nat, Page>, b: map<nat, Page>, m: set<nat>) {
    forall p | p in a && p !in m :: p in b && b[p] == a[p]
  }

  /** Pages are only ever taken from the supply. */
  ghost predicate NoneAdded(before: seq<nat>, after: seq<nat>) {
    forall p | p in after :: p in before
  }

  /** What a step that may rewrite the pages `w` keeps, whether or not it runs out of pages;
      running out is the only way it fails. */
  ghost predicate Kept(s: Txn, t: Txn, w: set<nat>) {
    && StoreOk(t) && t.o == s.o && t.xid == s.xid
    && CopyOnWrite(s.pages, t.pages, s.xid)
    && Confined(s.pages, t.pages, w)
    && (s.failed ==> t.failed)
    && (s.supply == [] ==> t.supply == []) && NoneAdded(s.supply, t.supply)
    && (t.failed ==> s.failed || t.supply == [])
  }

  lemma {:induction false} KeptTrans(s: Txn, t: Txn, u: Txn, w: set<nat>, w': set<nat>)
    requires Kept(s, t, w) && Kept(t, u, w')
    requires forall p | p in w' :: p in w || p !in s.pages
    ensures Kept(s, u, w)
  {
  }

  lemma {:induction false} KeptWider(s: Txn, t: Txn, w: set<nat>, w': set<nat>)
    requires Kept(s, t, w) && w <= w'
    ensures Kept(s, t, w')
  {
  }

  // ---- the operations

  predicate CanOwn(s: Txn, no: nat)
    requires no in s.pages
  {
    s.pages[no].xid == s.xid || s.supply != []
  }

  function Stamped(p: Page, xid: nat): Page {
    p.(xid := xid)
  }

  /** Makes page `no` one of this transaction: itself, or its copy on the next page of the supply. */
  function Owned(s: Txn, no: nat): (Txn, nat)
    requires no in s.pages && CanOwn(s, no)
  {
    if s.pages[no].xid == s.xid then (s, no)
    else
      var c := s.supply[0];
      (s.(supply := s.supply[1..], pages := s.pages[c := s.pages[no].(xid := s.xid)], gc := s.gc + [no]), c)
  }

  function SetStep(s: Txn, level: nat, no: nat): Txn
    requires level < |s.path|
  {
    s.(path := s.path[level := Step(no, s.path[level].pindex)])
  }

  function SetPtr(s: Txn, no: nat, idx: nat, n: nat): Txn
    requires BranchAt(s.pages, no, idx)
  {
    s.(pages := s.pages[no := s.pages[no].(ptrs := s.pages[no].ptrs[idx := n])])
  }

  /** The page at `level` owned, its child `idx` set to the owned page `n`. */
  function Attach(s: Txn, level: nat, n: nat, idx: nat): Txn
    requires level < |s.path| && BranchAt(s.pages, s.path[level].no, idx) && CanOwn(s, s.path[level].no)
  {
    var (s1, par) := Owned(s, s.path[level].no);
    var s2 := SetStep(s1, level, par);
    if n in s2.pages && s2.pages[n].xid == s.xid then SetPtr(s2, par, idx, n) else s2
  }

  lemma {:induction false} OwnedKept(s: Txn, no: nat)
    requires StoreOk(s) && no in s.pages && CanOwn(s, no)
    ensures var (t, c) := Owned(s, no);
            && Kept(s, t, {})
            && t == s.(supply := t.supply, pages := t.pages, gc := t.gc)
            && (c == no || c !in s.pages)
            && t.pages == s.pages[c := Stamped(s.pages[no], s.xid)]
  {
    if s.pages[no].xid != s.xid {
      assert s.supply[0] in s.supply && s.supply[0] !in s.supply[1..];
    }
  }

  lemma {:induction false} SetPtrKept(s: Txn, no: nat, idx: nat, n: nat)
    requires StoreOk(s) && BranchAt(s.pages, no, idx) && s.pages[no].xid == s.xid
    ensures Kept(s, SetPtr(s, no, idx, n), {no})
  {
  }

  lemma {:induction false} AttachKept(s: Txn, level: nat, n: nat, idx: nat)
    requires StoreOk(s) && level < |s.path| && Safe(s, level)
    requires BranchAt(s.pages, s.path[level].no, idx) && CanOwn(s, s.path[level].no)
    ensures var t := Attach(s, level, n, idx);
            && Kept(s, t, {s.path[level].no}) && Safe(t, level)
            && t.path == s.path[level := Step(t.path[level].no, s.path[level].pindex)]
            && (t.path[level].no == s.path[level].no || t.path[level].no !in s.pages)
            && t.path[level].no in t.pages && t.pages[t.path[level].no].xid == s.xid
  {
    hide Owned;
    hide Stamped;
    hide Kept;
    hide Safe;
    hide StoreOk;
    var no := s.path[level].no;
    OwnedKept(s, no);
    var (s1, par) := Owned(s, no);
    StepKept(s, s1, level, no, par, idx);
    var s2 := SetStep(s1, level, par);
    SetPtrKept(s2, par, idx, n);
    SetPtrSafe(s2, par, idx, n, level);
    KeptTrans(s, s2, SetPtr(s2, par, idx, n), {no}, {par});
  }

  lemma {:induction false} SetPtrSafe(s: Txn, no: nat, idx: nat, n: nat, level: nat)
    requires BranchAt(s.pages, no, idx) && Safe(s, level)
    ensures Safe(SetPtr(s, no, idx, n), level)
  {
  }

  lemma {:induction false} StepKept(s: Txn, t: Txn, level: nat, no: nat, c: nat, idx: nat)
    requires level < |s.path| && Safe(s, level) && s.path[level].no == no && t.path == s.path
    requires Kept(s, t, {}) && BranchAt(s.pages, no, idx) && (c == no || c !in s.pages)
    requires t.pages == s.pages[c := Stamped(s.pages[no], s.xid)]
    ensures var u := SetStep(t, level, c);
            && Kept(s, u, {no}) && StoreOk(u) && Safe(u, level)
            && BranchAt(u.pages, c, idx) && u.pages[c].xid == s.xid == u.xid
  {
  }

  /** Where the child of `level` hangs one level up. */
  function UpIndex(s: Txn, level: nat): nat {
    if level + 1 < |s.path| then s.path[level + 1].pindex else 0
  }

  /** Points every ancestor at the (copied) child below it, up to the root. */
  function SetNode(s: Txn, level: nat, n: nat, idx: nat): (Txn, bool)
    requires StoreOk(s) && level <= |s.path| && Safe(s, level)
    requires level < |s.path| ==> BranchAt(s.pages, s.path[level].no, idx)
    decreases |s.path| - level
  {
    if level == |s.path| then (s.(root := Some(n)), true)
    else if !CanOwn(s, s.path[level].no) then (s.(failed := true), false)
    else
      AttachKept(s, level, n, idx);
      var t := Attach(s, level, n, idx);
      SetNode(t, level + 1, t.path[level].no, UpIndex(t, level))
  }

  /** The path keeps its shape; from `level` up a step names the same page or one new to the store. */
  ghost predicate SamePath(s: Txn, t: Txn, level: nat) {
    && |t.path| == |s.path|
    && (forall i | 0 <= i < |s.path| :: t.path[i].pindex == s.path[i].pindex)
    && (forall i | 0 <= i < |s.path| && i < level :: t.path[i].no == s.path[i].no)
    && (forall i | level <= i < |s.path| :: t.path[i].no == s.path[i].no || t.path[i].no !in s.pages)
  }

  /** A step that rewrote ancestors from `level` up. */
  ghost predicate Climbed(s: Txn, t: Txn, level: nat) {
    Kept(s, t, PathNos(s, level)) && SamePath(s, t, level) && Safe(t, level)
  }

  lemma {:induction false} SafeBelow(s: Txn, t: Txn, level: nat)
    requires level < |s.path| && Safe(s, level) && Climbed(s, t, level + 1)
    ensures Safe(t, level)
  {
    assert s.path[level].no !in PathNos(s, level + 1);
  }

  lemma {:induction false} SamePathTrans(s: Txn, t: Txn, u: Txn, level: nat)
    requires level < |s.path| && SamePath(s, t, level) && SamePath(t, u, level + 1)
    requires CopyOnWrite(s.pages, t.pages, s.xid)
    ensures SamePath(s, u, level)
  {
  }

  lemma {:induction false} ClimbedTrans(s: Txn, t: Txn, u: Txn, level: nat)
    requires level < |s.path| && Safe(t, level)
    requires Kept(s, t, PathNos(s, level)) && SamePath(s, t, level) && Climbed(t, u, level + 1)
    ensures Climbed(s, u, level)
  {
    SafeBelow(t, u, level);
    SamePathTrans(s, t, u, level);
    KeptTrans(s, t, u, PathNos(s, level), PathNos(t, level + 1));
  }

  lemma {:induction false} AttachClimbed(s: Txn, level: nat, n: nat, idx: nat)
    requires StoreOk(s) && level < |s.path| && Safe(s, level)
    requires BranchAt(s.pages, s.path[level].no, idx) && CanOwn(s, s.path[level].no)
    ensures Climbed(s, Attach(s, level, n, idx), level)
  {
    AttachKept(s, level, n, idx);
    var t := Attach(s, level, n, idx);
    assert {s.path[level].no} <= PathNos(s, level);
  }

  lemma {:induction false} SetNodeClimbed(s: Txn, level: nat, n: nat, idx: nat)
    requires StoreOk(s) && level <= |s.path| && Safe(s, level)
    requires level < |s.path| ==> BranchAt(s.pages, s.path[level].no, idx)
    ensures Climbed(s, SetNode(s, level, n, idx).0, level)
    ensures !SetNode(s, level, n, idx).1 ==> SetNode(s, level, n, idx).0.failed
    decreases |s.path| - level
  {
    if level < |s.path| && CanOwn(s, s.path[level].no) {
      AttachKept(s, level, n, idx);
      AttachClimbed(s, level, n, idx);
      var t := Attach(s, level, n, idx);
      SetNodeClimbed(t, level + 1, t.path[level].no, UpIndex(t, level));
      ClimbedTrans(s, t, SetNode(s, level, n, idx).0, level);
    }
  }

  // ---- what a climb that did not run out of pages leaves

  /** Pages in hand that no tree holds. */
  function Loose(s: Txn): multiset<nat> {
    multiset(s.supply) + multiset(s.gc)
  }

  /** The steps from `from` up are the frames `fs`, held by the store around some page `hole`. */
  ghost predicate Holds(s: Txn, from: nat, fs: seq<Frame>, hole: nat) {
    && |s.path| == from + |fs|
    && (forall i | 0 <= i < |fs| :: s.path[from + i] == Step(fs[i].no, |fs[i].left|))
    && StoredPath(s.pages, fs, hole)
  }

  /** The children that hang off a path. */
  function KidsBag(fs: seq<Frame>): multiset<nat> {
    if fs == [] then multiset{} else BagAll(fs[0].left) + BagAll(fs[0].right) + KidsBag(fs[1..])
  }

  function StepsBag(steps: seq<Step>): multiset<nat> {
    if steps == [] then multiset{} else multiset{steps[0].no} + StepsBag(steps[1..])
  }

  lemma {:induction false} PathBagSplit(steps: seq<Step>, fs: seq<Frame>)
    requires |steps| == |fs| && forall i | 0 <= i < |fs| :: steps[i].no == fs[i].no
    ensures PathBag(fs) == StepsBag(steps) + KidsBag(fs)
  {
    if fs != [] {
      PathBagSplit(steps[1..], fs[1..]);
    }
  }

  lemma {:induction false} CopiedKids(fs: seq<Frame>, gs: seq<Frame>, xid: nat)
    requires Copied(fs, gs, xid)
    ensures KidsBag(gs) == KidsBag(fs)
  {
    if fs != [] {
      CopiedKids(fs[1..], gs[1..], xid);
    }
  }

  /** No step from `level` up names a page among the children of the frames. */
  ghost predicate Clear(s: Txn, level: nat, fs: seq<Frame>) {
    forall p | p in PathNos(s, level) :: p !in KidsBag(fs)
  }

  // Conservation: whatever page a climb drops from the path it discards, and it adds none but from the supply.

  lemma {:induction false} OwnedLoose(s: Txn, no: nat)
    requires no in s.pages && CanOwn(s, no)
    ensures var (t, c) := Owned(s, no); multiset{c} + Loose(t) == multiset{no} + Loose(s)
  {
    if s.pages[no].xid != s.xid {
      assert s.supply == [s.supply[0]] + s.supply[1..];
    }
  }

  lemma {:induction false} SetNodeSteps(s: Txn, level: nat, n: nat, idx: nat)
    requires StoreOk(s) && level <= |s.path| && Safe(s, level)
    requires level < |s.path| ==> BranchAt(s.pages, s.path[level].no, idx)
    ensures var t := SetNode(s, level, n, idx).0; |t.path| == |s.path| && t.path[..level] == s.path[..level]
  {
    SetNodeClimbed(s, level, n, idx);
  }

  lemma {:induction false} AttachSteps(s: Txn, level: nat, n: nat, idx: nat)
    requires StoreOk(s) && level < |s.path| && Safe(s, level)
    requires BranchAt(s.pages, s.path[level].no, idx) && CanOwn(s, s.path[level].no)
    ensures var t := Attach(s, level, n, idx);
            && StoreOk(t) && |t.path| == |s.path| && Safe(t, level)
            && t.path[level + 1..] == s.path[level + 1..]
            && multiset{t.path[level].no} + Loose(t) == multiset{s.path[level].no} + Loose(s)
  {
    AttachKept(s, level, n, idx);
    OwnedLoose(s, s.path[level].no);
  }

  lemma {:induction false} StepsBagCons(steps: seq<Step>, level: nat)
    requires level < |steps|
    ensures StepsBag(steps[level..]) == multiset{steps[level].no} + StepsBag(steps[level + 1..])
  {
    assert steps[level..][1..] == steps[level + 1..];
  }

  lemma {:induction false} SetNodeBag(s: Txn, level: nat, n: nat, idx: nat)
    requires StoreOk(s) && level <= |s.path| && Safe(s, level)
    requires level < |s.path| ==> BranchAt(s.pages, s.path[level].no, idx)
    ensures var t := SetNode(s, level, n, idx).0;
            |t.path| == |s.path| && StepsBag(t.path[level..]) + Loose(t) == StepsBag(s.path[level..]) + Loose(s)
    decreases |s.path| - level
  {
    if level < |s.path| && CanOwn(s, s.path[level].no) {
      AttachSteps(s, level, n, idx);
      var t := Attach(s, level, n, idx);
      var m := t.path[level].no;
      SetNodeBag(t, level + 1, m, UpIndex(t, level));
      SetNodeSteps(t, level + 1, m, UpIndex(t, level));
      var u := SetNode(s, level, n, idx).0;
      assert u.path[..level + 1][level] == t.path[..level + 1][level];
      StepsBagCons(u.path, level);
      StepsBagCons(s.path, level);
      BagChain(multiset{m}, multiset{s.path[level].no}, StepsBag(u.path[level + 1..]), StepsBag(t.path[level + 1..]),
               Loose(u), Loose(t), Loose(s));
    }
  }

  lemma {:induction false} BagChain(a: multiset<nat>, b: multiset<nat>, p: multiset<nat>, q: multiset<nat>,
                 x: multiset<nat>, y: multiset<nat>, z: multiset<nat>)
    requires p + x == q + y && a + y == b + z
    ensures (a + p) + x == (b + q) + z
  {
    assert (a + p) + x == a + (p + x);
    assert a + (q + y) == (a + y) + q;
  }

  /** A frame whose page was rewritten to name `par` in its hole, the children untouched. */
  lemma {:induction false} Reattach(a: map<nat, Page>, b: map<nat, Page>, w: set<nat>, f: Frame, hole: nat, par: nat, no: nat, xid: nat)
    requires StoredFrame(a, f, hole) && Confined(a, b, w)
    requires forall p | p in w :: p !in BagAll(f.left) && p !in BagAll(f.right)
    requires no in b && b[no] == Branch(xid, f.keys, a[f.no].ptrs[|f.left| := par])
    ensures StoredFrame(b, f.(no := no, xid := xid), par)
  {
    StoredAllKept(a, b, f.left);
    StoredAllKept(a, b, f.right);
    assert (Nos(f.left) + [hole] + Nos(f.right))[|f.left| := par] == Nos(f.left) + [par] + Nos(f.right);
  }

  lemma {:induction false} StoredKeys(pages: map<nat, Page>, ts: seq<Tree>, p: nat)
    requires StoredAll(pages, ts) && p in BagAll(ts)
    ensures p in pages
    decreases ts
  {
    if p in Bag(ts[0]) {
      if ts[0].TBranch? && p != ts[0].no {
        StoredKeys(pages, ts[0].kids, p);
      }
    } else {
      StoredKeys(pages, ts[1..], p);
    }
  }

  lemma {:induction false} KidsKeys(pages: map<nat, Page>, fs: seq<Frame>, hole: nat, p: nat)
    requires StoredPath(pages, fs, hole) && p in KidsBag(fs)
    ensures p in pages
  {
    if p in BagAll(fs[0].left) {
      StoredKeys(pages, fs[0].left, p);
    } else if p in BagAll(fs[0].right) {
      StoredKeys(pages, fs[0].right, p);
    } else {
      KidsKeys(pages, fs[1..], fs[0].no, p);
    }
  }

  lemma {:induction false} StoredPathConfined(a: map<nat, Page>, b: map<nat, Page>, w: set<nat>, fs: seq<Frame>, hole: nat)
    requires StoredPath(a, fs, hole) && Confined(a, b, w)
    requires forall p | p in w :: p !in KidsBag(fs)
    requires forall i | 0 <= i < |fs| :: fs[i].no !in w
    ensures StoredPath(b, fs, hole)
    decreases |fs|
  {
    if fs != [] {
      StoredAllKept(a, b, fs[0].left);
      StoredAllKept(a, b, fs[0].right);
      StoredPathConfined(a, b, w, fs[1..], fs[0].no);
    }
  }

  lemma {:induction false} AttachFrames(s: Txn, level: nat, n: nat, idx: nat, fs: seq<Frame>, hole: nat)
    requires StoreOk(s) && level < |s.path| && Safe(s, level)
    requires BranchAt(s.pages, s.path[level].no, idx) && CanOwn(s, s.path[level].no)
    requires n in s.pages && s.pages[n].xid == s.xid
    requires Holds(s, level + 1, fs, hole) && Clear(s, level, fs)
    ensures var t, page := Attach(s, level, n, idx), s.pages[s.path[level].no];
            && |t.path| == |s.path|
            && t.path[level].no in t.pages
            && t.pages[t.path[level].no] == Branch(s.xid, page.keys, page.ptrs[idx := n])
            && (page.xid == s.xid ==> t.path[level].no == s.path[level].no)
            && Holds(t, level + 1, fs, hole)
  {
    var no := s.path[level].no;
    AttachKept(s, level, n, idx);
    OwnedKept(s, no);
    var t := Attach(s, level, n, idx);
    assert no in PathNos(s, level);
    forall i | 0 <= i < |fs| ensures fs[i].no != no {
      assert s.path[level + 1 + i] == Step(fs[i].no, |fs[i].left|);
    }
    StoredPathConfined(s.pages, t.pages, {no}, fs, hole);
  }

  lemma {:induction false} ClearKept(s: Txn, t: Txn, level: nat, fs: seq<Frame>, hole: nat)
    requires Holds(s, level + 1, fs, hole) && Clear(s, level, fs) && SamePath(s, t, level)
    ensures Clear(t, level, fs)
  {
    forall p | p in PathNos(t, level) ensures p !in KidsBag(fs) {
      var i :| level <= i < |t.path| && t.path[i].no == p;
      assert s.path[i].no in PathNos(s, level);
      if p in KidsBag(fs) {
        KidsKeys(s.pages, fs, hole, p);
      }
    }
  }

  /** The frames above a climb, with the one at `level` put back under them. */
  lemma {:induction false} JoinFrames(t: Txn, u: Txn, level: nat, fs: seq<Frame>, hole: nat, par: nat, hs: seq<Frame>)
    returns (gs: seq<Frame>)
    requires fs != [] && Holds(t, level, fs, hole) && Climbed(t, u, level) && Clear(t, level, fs)
    requires var no := u.path[level].no;
             && no in u.pages
             && u.pages[no] == Branch(t.xid, fs[0].keys, t.pages[fs[0].no].ptrs[|fs[0].left| := par])
             && (fs[0].xid == t.xid ==> no == fs[0].no)
             && Holds(u, level + 1, hs, no)
    requires Copied(fs[1..], hs, t.xid)
    ensures Holds(u, level, gs, par) && Copied(fs, gs, t.xid)
  {
    hide StoreOk;
    hide Safe;
    hide CopyOnWrite;
    hide BagAll;
    var f := fs[0];
    var g := f.(no := u.path[level].no, xid := t.xid);
    gs := [g] + hs;
    assert gs[1..] == hs;
    Reattach(t.pages, u.pages, PathNos(t, level), f, hole, par, g.no, t.xid);
    assert t.path[level + 0] == Step(f.no, |f.left|);
    forall i | 0 <= i < |gs| ensures u.path[level + i] == Step(gs[i].no, |gs[i].left|) {
      if i > 0 {
        assert u.path[level + 1 + (i - 1)] == Step(hs[i - 1].no, |hs[i - 1].left|);
      }
    }
  }

  ghost predicate Reattached(s: Txn, t: Txn, level: nat, n: nat, idx: nat, fs: seq<Frame>, gs: seq<Frame>)
    requires level < |s.path| && BranchAt(s.pages, s.path[level].no, idx)
  {
    var page := s.pages[s.path[level].no];
    && |t.path| == |s.path|
    && t.path[level].no in t.pages
    && t.pages[t.path[level].no] == Branch(s.xid, page.keys, page.ptrs[idx := n])
    && (page.xid == s.xid ==> t.path[level].no == s.path[level].no)
    && Holds(t, level + 1, gs, t.path[level].no)
    && Copied(fs, gs, s.xid)
    && t.root == Some(t.path[|t.path| - 1].no)
  }

  /** A climb that did not run out of pages leaves the path stored, each frame in a page of this
      transaction and pointing at the one below. */
  lemma {:induction false} SetNodeFrames(s: Txn, level: nat, n: nat, idx: nat, fs: seq<Frame>, hole: nat)
    returns (gs: seq<Frame>)
    requires StoreOk(s) && level < |s.path| && Safe(s, level)
    requires BranchAt(s.pages, s.path[level].no, idx)
    requires n in s.pages && s.pages[n].xid == s.xid
    requires Holds(s, level + 1, fs, hole) && Clear(s, level, fs)
    requires !SetNode(s, level, n, idx).0.failed
    ensures Reattached(s, SetNode(s, level, n, idx).0, level, n, idx, fs, gs)
    decreases |s.path| - level, 0
  {
    hide Reattached;
    hide SetNode;
    hide Holds;
    hide Copied;
    var t := AttachAll(s, level, n, idx, fs, hole);
    var par := t.path[level].no;
    if level + 1 == |s.path| {
      SetNodeTop(s, t, level, n, idx, fs, hole);
      gs := [];
    } else {
      gs := SetNodeUp(t, level + 1, par, fs, hole);
      ReattachedStep(s, t, SetNode(t, level + 1, par, UpIndex(t, level)).0, level, n, idx, fs, gs);
    }
  }

  lemma {:induction false} SetNodeTop(s: Txn, t: Txn, level: nat, n: nat, idx: nat, fs: seq<Frame>, hole: nat)
    requires level + 1 == |s.path| == |t.path| && BranchAt(s.pages, s.path[level].no, idx)
    requires StoreOk(t) && Safe(t, level)
    requires var page, par := s.pages[s.path[level].no], t.path[level].no;
             && par in t.pages && t.pages[par] == Branch(s.xid, page.keys, page.ptrs[idx := n])
             && (page.xid == s.xid ==> par == s.path[level].no)
    requires Holds(t, level + 1, fs, hole)
    ensures Reattached(s, SetNode(t, level + 1, t.path[level].no, UpIndex(t, level)).0, level, n, idx, fs, [])
  {
  }

  lemma {:induction false} AttachAll(s: Txn, level: nat, n: nat, idx: nat, fs: seq<Frame>, hole: nat) returns (t: Txn)
    requires StoreOk(s) && level < |s.path| && Safe(s, level)
    requires BranchAt(s.pages, s.path[level].no, idx)
    requires n in s.pages && s.pages[n].xid == s.xid
    requires Holds(s, level + 1, fs, hole) && Clear(s, level, fs)
    requires !SetNode(s, level, n, idx).0.failed
    ensures StoreOk(t) && t.xid == s.xid && |t.path| == |s.path| && Safe(t, level)
    ensures t.path[level].no in t.pages && t.path[level].no !in PathNos(t, level + 1)
    ensures var page := s.pages[s.path[level].no];
            && t.pages[t.path[level].no] == Branch(s.xid, page.keys, page.ptrs[idx := n])
            && (page.xid == s.xid ==> t.path[level].no == s.path[level].no)
    ensures Holds(t, level + 1, fs, hole) && Clear(t, level + 1, fs)
    ensures SetNode(s, level, n, idx) == SetNode(t, level + 1, t.path[level].no, UpIndex(t, level))
  {
    AttachKept(s, level, n, idx);
    AttachClimbed(s, level, n, idx);
    AttachFrames(s, level, n, idx, fs, hole);
    t := Attach(s, level, n, idx);
    ClearKept(s, t, level, fs, hole);
    assert PathNos(t, level + 1) <= PathNos(t, level);
  }

  lemma {:induction false} ReattachedStep(s: Txn, t: Txn, u: Txn, level: nat, n: nat, idx: nat, fs: seq<Frame>, gs: seq<Frame>)
    requires level < |s.path| == |t.path| == |u.path| && BranchAt(s.pages, s.path[level].no, idx)
    requires var page, par := s.pages[s.path[level].no], t.path[level].no;
             && par in t.pages && t.pages[par] == Branch(s.xid, page.keys, page.ptrs[idx := n])
             && (page.xid == s.xid ==> par == s.path[level].no)
             && u.path[level].no == par && par in u.pages && u.pages[par] == t.pages[par]
             && Holds(u, level + 1, gs, par)
    requires Copied(fs, gs, s.xid) && u.root == Some(u.path[|u.path| - 1].no)
    ensures Reattached(s, u, level, n, idx, fs, gs)
  {
  }

  lemma {:induction false} HoldsTail(s: Txn, level: nat, fs: seq<Frame>, hole: nat)
    requires Holds(s, level, fs, hole) && fs != []
    ensures level < |s.path| && s.path[level] == Step(fs[0].no, |fs[0].left|)
    ensures Holds(s, level + 1, fs[1..], fs[0].no)
  {
    assert s.path[level + 0] == Step(fs[0].no, |fs[0].left|);
    forall i | 0 <= i < |fs[1..]| ensures s.path[level + 1 + i] == Step(fs[1..][i].no, |fs[1..][i].left|) {
      assert s.path[level + (i + 1)] == Step(fs[i + 1].no, |fs[i + 1].left|);
    }
  }

  lemma {:induction false} HoldsPage(s: Txn, level: nat, fs: seq<Frame>, hole: nat)
    requires Holds(s, level, fs, hole) && fs != []
    ensures fs[0].no in s.pages
    ensures s.pages[fs[0].no] == Branch(fs[0].xid, fs[0].keys, Nos(fs[0].left) + [hole] + Nos(fs[0].right))
  {
  }

  lemma {:induction false} HoldsLength(s: Txn, level: nat, fs: seq<Frame>, hole: nat)
    requires Holds(s, level, fs, hole)
    ensures |s.path| == level + |fs|
  {
  }

  lemma {:induction false} ClearTail(s: Txn, level: nat, fs: seq<Frame>)
    requires Clear(s, level, fs) && fs != []
    ensures Clear(s, level, fs[1..])
  {
  }

  lemma {:induction false} SetNodeUp(t: Txn, level: nat, par: nat, fs: seq<Frame>, hole: nat)
    returns (gs: seq<Frame>)
    requires StoreOk(t) && 0 < level < |t.path| && Safe(t, level)
    requires par in t.pages && t.pages[par].xid == t.xid && par !in PathNos(t, level)
    requires Holds(t, level, fs, hole) && Clear(t, level, fs)
    requires !SetNode(t, level, par, t.path[level].pindex).0.failed
    ensures var u := SetNode(t, level, par, t.path[level].pindex).0;
            && |u.path| == |t.path| && u.path[level - 1].no == t.path[level - 1].no
            && par in u.pages && u.pages[par] == t.pages[par]
            && Holds(u, level, gs, par) && Copied(fs, gs, t.xid)
            && u.root == Some(u.path[|u.path| - 1].no)
    decreases |t.path| - level, 1
  {
    hide StoreOk;
    hide Copied;
    hide Holds;
    hide Clear;
    hide SetNode;
    HoldsLength(t, level, fs, hole);
    var f, rest := fs[0], fs[1..];
    HoldsTail(t, level, fs, hole);
    HoldsPage(t, level, fs, hole);
    ClearTail(t, level, fs);
    var hs := SetNodeFrames(t, level, par, |f.left|, rest, f.no);
    SetNodeClimbed(t, level, par, |f.left|);
    gs := JoinFrames(t, SetNode(t, level, par, |f.left|).0, level, fs, hole, par, hs);
  }
}
