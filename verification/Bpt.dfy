/** One tree of an open transaction (lib/bpt.c over the EdTxnDb cursor of lib/txn.c), updated in place. */
module Bpt {
  import opened BptTree
  import opened BptGrow
  import opened BptLeaf
  import opened BptStore
  import opened BptInsert
  import opened BptInsertFrames
  import opened BptInsertSplit
  import opened BptSet
  import opened BptPut
  import opened BptPutSplit
  import opened BptOrder
  import opened BptEdit
  import opened BptWhole
  import opened BptOutcome
  import opened BptFind
  import opened BptWalk
  import opened BptCost
  import opened Arith

  /** Result codes of the edits. */
  datatype Rc = Ok | ReadOnly | KeyMatch | DupKey | NoPages | Crashed

  /** The cursor of one tree. */
  datatype Cursor = Cursor(find: Option<nat>, idx: nat, key: nat, kmin: nat, kmax: nat, nsplits: nat,
                           matched: nat, nmatches: nat, nloops: nat, haskey: bool, hasfind: bool, hasentry: bool,
                           startPage: Option<nat>, startIndex: nat)

  /** The tree that the pages hold, and the cursor's way down it. */
  datatype Place = Place(tree: Option<Tree>, fs: seq<Frame>, leaf: Tree)

  /** One sound tree, every page in hand once, and the cursor in it; all this until an edit fails. */
  ghost predicate Standing(s: Txn, c: Cursor, p: Place) {
    && StoreOk(s)
    && (!s.failed ==>
          && Rooted(s, p.tree)
          && (c.hasfind ==>
                && On(s, c.find, p.tree, p.fs, p.leaf)
                && (p.tree.Some? ==> p.leaf.TLeaf? && c.idx <= |p.leaf.ents|)
                && (c.hasentry ==> p.tree.Some? && (c.idx < |p.leaf.ents| || Stale(c, p)))))
  }

  /** The cursor shows the first slot of a leaf without entries as if it held one. */
  predicate Stale(c: Cursor, p: Place) {
    c.hasentry && p.tree.Some? && p.leaf.TLeaf? && p.leaf.ents == [] && c.idx == 0
  }

  /** The cursor's place among all entries. */
  function Pos(c: Cursor, p: Place): nat {
    if p.tree.None? then 0 else |Before(p.fs)| + c.idx
  }

  /** The cursor is where a search for its key leads. */
  predicate AtSearch(c: Cursor, p: Place) {
    p.tree.Some? ==> p.leaf.TLeaf? && AtKey(p.leaf.ents, c.key, c.idx, c.nmatches)
  }

  /** [kmin, kmax] are exactly the keys that may stand at the cursor. */
  predicate AtWindow(c: Cursor, p: Place) {
    if p.tree.None? then c.kmin == 0 && c.kmax == KEY_MAX
    else
      && p.leaf.TLeaf?
      && c.kmin == WindowLow(p.leaf.ents, c.idx, PathLow(p.fs))
      && c.kmax == WindowHigh(p.leaf.ents, c.idx, PathHigh(p.fs))
  }

  /** Pages that a non-replacing set at the cursor adds to the tree. */
  function Predicted(p: Place, o: Orders): nat {
    if p.tree.None? then 1
    else if p.leaf.TLeaf? && |p.leaf.ents| == o.leaf then 1 + Growth(p.fs, o)
    else 0
  }

  /** The pages of older transactions on the way down to the cursor's leaf, and that leaf. */
  function Owing(p: Place, xid: nat): nat {
    if p.tree.None? then 0 else OldFrames(p.fs, xid) + if p.leaf.xid == xid then 0 else 1
  }

  /** The pages a set or a del at the cursor takes from the supply. */
  function SetCost(p: Place, o: Orders, xid: nat, replacing: bool): nat {
    Owing(p, xid) + if replacing then 0 else Predicted(p, o)
  }

  function DelCost(p: Place, xid: nat): nat {
    if p.leaf.xid == xid then 0 else Owing(p, xid)
  }

  /** No `n` entries have one key. */
  predicate Uncrowded(all: seq<Entry>, n: nat) {
    forall i, j | 0 <= i <= j < |all| && j - i + 1 >= n :: all[i].key != all[j].key
  }

  /** The levels of branches of a tree. */
  function Levels(tree: Option<Tree>): nat {
    if tree.None? then 0 else Height(tree.value)
  }

  /** Where a search for `k` leads. */
  function Found(tree: Option<Tree>, k: nat): Place {
    match tree
    case None => Place(None, [], TLeaf(0, 0, []))
    case Some(t) => var (fs, leaf) := Way(t, k, []); Place(tree, fs, leaf)
  }

  /** A non-replacing set at the cursor finds no room in its leaf. */
  predicate Full(p: Place, o: Orders, replacing: bool) {
    p.tree.Some? && p.leaf.TLeaf? && !replacing && |p.leaf.ents| == o.leaf
  }

  /** What setting `e` at the cursor relies on: that it fits there, that a replaced entry exists, and, for a
      full leaf, a cut that split_leaf admits and that is not right at the cursor above a smaller key. */
  predicate Settable(c: Cursor, p: Place, o: Orders, e: Entry, replacing: bool) {
    p.tree.Some? ==>
      && p.leaf.TLeaf? && Fits(p.leaf.ents, c.idx, e, PathLow(p.fs), PathHigh(p.fs))
      && (replacing ==> c.idx < |p.leaf.ents|)
      && (Full(p, o, replacing) ==>
            && Counted(c, p)
            && var mid := BptLeaf.SplitPoint(p.leaf.ents, c.key, c.idx, c.nmatches);
               mid.Some? ==> CutAt(p.leaf.ents, c.key, c.idx, mid.value) && !(mid.value == c.idx && e.key < c.key))
  }

  /** No more matches are counted than entries up to the cursor. */
  predicate Counted(c: Cursor, p: Place) {
    && p.leaf.TLeaf? && |p.leaf.ents| >= 2 && c.idx <= |p.leaf.ents|
    && c.nmatches <= c.idx + 1 && (c.nmatches > 0 ==> c.idx < |p.leaf.ents|)
  }

  /** split_point refuses to cut the cursor's leaf. */
  predicate NoCut(c: Cursor, p: Place) {
    Counted(c, p) && BptLeaf.SplitPoint(p.leaf.ents, c.key, c.idx, c.nmatches).None?
  }

  /** One entry put at place `at`, or replacing the one there; the cursor on it, the tree sound, its pages kept. */
  ghost predicate SetDone(s: Txn, p: Place, at: nat, t: Txn, find: Option<nat>, idx: nat, q: Place, e: Entry, replacing: bool) {
    && q.tree == Some(Plug(q.fs, q.leaf)) && find.Some?
    && at <= |Entries(p.tree)| && (replacing ==> at < |Entries(p.tree)|)
    && Outcome(s, p.tree, Put(t, true, find.value, idx), q.fs, q.leaf, NewEntries(Entries(p.tree), at, e, replacing), at, e,
               if replacing then 0 else Predicted(p, s.o))
  }

  /** ed_bpt_set writes over an entry only on a match, and never in the empty tree. */
  predicate Replacing(c: Cursor, p: Place, replace: bool) {
    replace && c.matched == 1 && p.tree.Some?
  }

  /** The checks of ed_bpt_set pass. */
  predicate Accepted(s: Txn, c: Cursor, e: Entry) {
    !s.failed && c.hasfind && c.kmin <= e.key <= c.kmax
  }

  /** Exactly the cursor's entry is gone, the cursor is where it was, and a window that was exact still is. */
  ghost predicate DelDone(s: Txn, c: Cursor, p: Place, t: Txn, d: Cursor, q: Place) {
    && Standing(t, d, q) && d == c.(find := d.find, kmax := d.kmax, nmatches := 0, hasentry := false) && Pos(d, q) == Pos(c, p)
    && q.leaf.TLeaf? && |q.leaf.ents| < s.o.leaf && d.kmax == WindowHigh(q.leaf.ents, d.idx, PathHigh(q.fs))
    && PathLow(q.fs) == PathLow(p.fs) && PathHigh(q.fs) == PathHigh(p.fs)
    && Pos(c, p) < |Entries(p.tree)| && Entries(q.tree) == RemoveAt(Entries(p.tree), Pos(c, p))
    && Pages(t, q.tree) == Pages(s, p.tree) && Size(q.tree) == Size(p.tree)
    && (AtWindow(c, p) ==> AtWindow(d, q))
  }

  // ---- what edits mean for the list of all entries

  datatype Op = Insert(e: Entry, replace: bool) | Delete(k: nat) {
    function Key(): nat {
      if Insert? then e.key else k
    }
  }

  /** How many leading entries are below `k`. */
  function Below(all: seq<Entry>, k: nat): (n: nat)
    ensures n <= |all|
  {
    if all == [] || all[0].key >= k then 0 else 1 + Below(all[1..], k)
  }

  function Apply(all: seq<Entry>, op: Op): seq<Entry> {
    var i := Below(all, op.Key());
    var hit := exists x | x in all :: x.key == op.Key();
    match op
    case Insert(e, replace) =>
      if replace && hit && i < |all| then all[i := e] else InsertAt(all, i, e)
    case Delete(k) =>
      if hit && i < |all| then RemoveAt(all, i) else all
  }

  function ApplyAll(all: seq<Entry>, ops: seq<Op>): seq<Entry>
    decreases |ops|
  {
    if ops == [] then all else Apply(ApplyAll(all, ops[..|ops| - 1]), ops[|ops| - 1])
  }

  lemma {:induction false} BelowBound(all: seq<Entry>, k: nat, pos: nat)
    requires LowerBound(all, k, pos)
    ensures Below(all, k) == pos
    decreases |all|
  {
    if pos > 0 {
      BelowBound(all[1..], k, pos - 1);
    }
  }

  /** A search's place is the place the edit means. */
  lemma {:induction false} ApplyAt(all: seq<Entry>, op: Op, pos: nat)
    requires LowerBound(all, op.Key(), pos)
    ensures pos <= |all|
    ensures var hit := exists x | x in all :: x.key == op.Key();
            && (hit ==> pos < |all|)
            && Apply(all, op) ==
               match op
               case Insert(e, replace) => if replace && hit then all[pos := e] else InsertAt(all, pos, e)
               case Delete(k) => if hit then RemoveAt(all, pos) else all
  {
    BelowBound(all, op.Key(), pos);
  }

  // ---- walking

  /** The place the walk began at. */
  function StartPos(c: Cursor, p: Place): nat {
    if p.tree.Some? && c.startPage.Some? then StartOf(p.tree.value, c.startPage.value) + c.startIndex else 0
  }

  /** The walk began at an entry of this tree. */
  predicate Started(c: Cursor, p: Place) {
    && p.tree.Some? && c.startPage.Some?
    && StartPos(c, p) < |Entries(p.tree)| && PageAt(p.tree.value, StartPos(c, p)) == c.startPage.value
  }

  /** The cursor stands on an entry. */
  ghost predicate OnEntry(s: Txn, c: Cursor, p: Place) {
    && Standing(s, c, p) && !s.failed && c.hasfind && c.hasentry && p.tree.Some? && !Stale(c, p)
  }

  /** A step to the right out of the cursor's leaf enters a leaf with entries. */
  predicate CanNext(c: Cursor, p: Place) {
    c.hasfind && p.tree.Some? && p.leaf.TLeaf? && c.idx + (if c.hasentry then 1 else 0) >= |p.leaf.ents| ==> HasEntry(LeafAfter(p.fs, p.tree.value))
  }

  /** So does one to the left. */
  predicate CanPrev(c: Cursor, p: Place) {
    c.hasfind && p.tree.Some? && c.idx == 0 ==> HasEntry(LeafBefore(p.fs, p.tree.value))
  }

  /** A move within the tree: the same tree, the cursor in it, the start remembered. */
  ghost predicate Moved(s: Txn, c: Cursor, p: Place, d: Cursor, q: Place) {
    && Standing(s, d, q) && !s.failed && d.hasfind && q.tree == p.tree
    && d.startPage == c.startPage && d.startIndex == c.startIndex && d.nloops == c.nloops && d.haskey == c.haskey && d.key == c.key
  }

  /** The cursor after a step to the right: to the next slot of its leaf, or to the first of the leaf after it with the
      bounds of that leaf, where the matches are counted anew. */
  ghost predicate SteppedRight(c: Cursor, p: Place, d: Cursor, q: Place) {
    p.tree.Some? && p.leaf.TLeaf? && q.leaf.TLeaf? &&
    var i := c.idx + if c.hasentry then 1 else 0;
    if i < |p.leaf.ents| then
      && q == p && d.find == c.find && d.idx == i && d.nmatches == c.nmatches
      && (if c.hasentry then d.kmin == c.kmax && d.kmax == p.leaf.ents[i].key else d.kmin == c.kmin && d.kmax == c.kmax)
    else
      && q.leaf == LeafAfter(p.fs, p.tree.value) && d.find == Some(q.leaf.no) && d.idx == 0 && d.nmatches == 0
      && d.kmin == PathLow(q.fs) && d.kmax == WindowHigh(q.leaf.ents, 0, PathHigh(q.fs))
  }

  /** The cursor after a step to the left, with the bounds the code sets. */
  ghost predicate SteppedLeft(c: Cursor, p: Place, d: Cursor, q: Place) {
    p.tree.Some? && p.leaf.TLeaf? && q.leaf.TLeaf? &&
    if c.idx > 0 then
      && c.idx <= |p.leaf.ents| && q == p && d.find == c.find && d.idx == c.idx - 1 && d.nmatches == c.nmatches
      && d.kmax == c.kmin && d.kmin == p.leaf.ents[c.idx - 1].key
    else
      && q.leaf == LeafBefore(p.fs, p.tree.value) && q.leaf.ents != [] && d.find == Some(q.leaf.no) && d.idx == |q.leaf.ents| - 1
      && d.nmatches == 0 && d.kmin == q.leaf.ents[d.idx].key && d.kmax == LeftBound(p.fs)
  }

  /** The loop count goes up exactly when a step comes back to where the walk began. */
  predicate Round(c: Cursor, p: Place, d: Cursor, q: Place) {
    Started(c, p) ==>
      && Started(d, q) && StartPos(d, q) == StartPos(c, p)
      && d.nloops == c.nloops + if !Stale(d, q) && Pos(d, q) == StartPos(d, q) then 1 else 0
  }

  /** The two halves of a branch cut in two. */
  lemma {:induction false} CutShape(s: Txn, level: nat)
    requires CanCut(s, level)
    ensures var no, i := s.path[level].no, s.path[level].pindex;
            var keys := s.pages[no].keys;
            var (t, left) := CutLeft(CutRight(s, level), no, Middle(keys));
            && left in t.pages && s.supply[0] in t.pages && left != s.supply[0]
            && (i < Middle(keys) ==> BranchAt(t.pages, left, i))
            && (i >= Middle(keys) ==> BranchAt(t.pages, s.supply[0], i - Middle(keys)))
  {
    assert s.supply[0] in s.supply && s.supply[0] !in s.supply[1..];
  }

  lemma {:induction false} SplitFacts(s: Txn, level: nat, key: nat)
    requires StoreOk(s) && level < |s.path| && Safe(s, level) && FullAt(s, level) && Agrees(s, level, key)
    ensures var no, i := s.path[level].no, s.path[level].pindex;
            var keys := s.pages[no].keys;
            && BranchAt(s.pages, no, i) && 1 <= Middle(keys) < |keys| && Middle(keys) == (|keys| + 1) / 2
            && (key < Pivot(keys) <==> i < Middle(keys)) && Pivot(keys) == keys[Middle(keys) - 1]
    ensures s.supply != [] ==> s.supply[0] !in s.pages && s.supply[0] !in s.supply[1..]
  {
    assert s.supply != [] ==> s.supply[0] in s.supply;
  }

  class Db {
    const o: Orders
    const xid: nat
    var pages: map<nat, Page>
    var supply: seq<nat>
    var gc: seq<nat>
    var failed: bool
    var root: Option<nat>
    var path: seq<Step>
    var cur: Cursor
    ghost var place: Place

    function View(): Txn
      reads this
    {
      Txn(o, xid, pages, supply, gc, failed, root, path)
    }

    ghost predicate Valid()
      reads this
    {
      Standing(View(), cur, place)
    }

    ghost function Contents(): seq<Entry>
      reads this
    {
      Entries(place.tree)
    }

    // ---- searching

    /** ed_bpt_find: puts the cursor on the first entry of key `k`, or where one would go. */
    method Find(k: nat) returns (rc: nat)
      requires Valid() && k <= KEY_MAX
      modifies `path, `cur, `place
      ensures Valid() && place.tree == old(place.tree)
      ensures !failed ==> cur.hasfind && cur.haskey && cur.key == k && cur.nloops == 0 && cur.startPage == cur.find && cur.startIndex == cur.idx
      ensures !failed ==> LowerBound(Contents(), k, Pos(cur, place))
      ensures !failed ==> rc == (if exists e | e in Contents() :: e.key == k then 1 else 0)
      ensures !failed ==> cur.hasentry == (rc == 1) && !Stale(cur, place) && cur.nmatches == cur.matched == rc
      ensures !failed && rc == 1 ==> Pos(cur, place) < |Contents()| && Contents()[Pos(cur, place)].key == k
      ensures !failed && rc == 1 ==> Started(cur, place) && StartPos(cur, place) == Pos(cur, place)
      ensures !failed ==> cur.kmin <= k <= cur.kmax && AtSearch(cur, place) && AtWindow(cur, place) && cur.nsplits == Predicted(place, o)
      ensures !failed ==> place == Found(place.tree, k)
    {
      hide Standing;
      hide LowerBound;
      hide AtSearch;
      hide AtWindow;
      hide Pos;
      if failed {
        // the tree may be half changed
        FailedAnyhow(View(), cur, place);
        cur, rc := *, *;
        return;
      }
      rc := Lookup(k);
    }

    /** The search itself. */
    method Lookup(k: nat) returns (rc: nat)
      requires Valid() && !failed && k <= KEY_MAX
      modifies `path, `cur, `place
      ensures Valid() && place.tree == old(place.tree)
      ensures cur.hasfind && cur.haskey && cur.key == k && cur.nloops == 0 && cur.startPage == cur.find && cur.startIndex == cur.idx
      ensures LowerBound(Contents(), k, Pos(cur, place))
      ensures rc == (if exists e | e in Contents() :: e.key == k then 1 else 0)
      ensures cur.hasentry == (rc == 1) && !Stale(cur, place) && cur.nmatches == cur.matched == rc
      ensures rc == 1 ==> Pos(cur, place) < |Contents()| && Contents()[Pos(cur, place)].key == k
      ensures rc == 1 ==> Started(cur, place) && StartPos(cur, place) == Pos(cur, place)
      ensures cur.kmin <= k <= cur.kmax && AtSearch(cur, place) && AtWindow(cur, place) && cur.nsplits == Predicted(place, o)
      ensures place == Found(place.tree, k)
    {
      hide Way;
      hide Rooted;
      hide Zip;
      hide LowerBound;
      hide AtKey;
      hide Plug;
      hide Before;
      hide PathLow;
      hide PathHigh;
      hide Growth;
      hide StoreOk;
      hide WindowLow;
      hide WindowHigh;
      var p, f, i, n, lo, hi;
      ghost var fs, leaf;
      p, f, i, rc, n, lo, hi, fs, leaf := Search(View(), k, place.tree);
      path := p;
      cur := Cursor(f, i, k, lo, hi, n, rc, rc, 0, true, true, rc == 1, f, i);
      place := Place(place.tree, fs, leaf);
      if rc == 1 {
        StartedHere(View(), cur, place);
      }
    }

    // ---- pages

    /** ed_txn_clone of a page that an older transaction wrote. */
    method Own(no: nat) returns (c: nat, ok: bool)
      requires no in pages
      modifies `pages, `supply, `gc, `failed
      ensures ok == CanOwn(old(View()), no)
      ensures ok ==> (View(), c) == Owned(old(View()), no)
      ensures !ok ==> View() == old(View()).(failed := true)
    {
      if pages[no].xid == xid {
        return no, true;
      }
      if supply == [] {
        failed := true;
        return no, false;
      }
      c := supply[0];
      supply, pages, gc := supply[1..], pages[c := pages[no].(xid := xid)], gc + [no];
      ok := true;
    }

    /** set_node: hangs page `n` at child `idx` of the ancestor at `level`, then that ancestor in turn. */
    method SetNode(level: nat, n: nat, idx: nat) returns (ok: bool)
      requires StoreOk(View()) && level <= |path| && Safe(View(), level)
      requires level < |path| ==> BranchAt(pages, path[level].no, idx)
      modifies `pages, `supply, `gc, `failed, `root, `path
      ensures (View(), ok) == BptStore.SetNode(old(View()), level, n, idx)
      decreases |path| - level
    {
      hide BptStore.SetNode;
      hide StoreOk;
      hide Safe;
      UnfoldSetNode(View(), level, n, idx);
      if level == |path| {
        root := Some(n);
        return true;
      }
      var parent;
      parent, ok := Own(path[level].no);
      if !ok {
        return;
      }
      path := path[level := Step(parent, path[level].pindex)];
      if n in pages && pages[n].xid == xid {
        pages := pages[parent := pages[parent].(ptrs := pages[parent].ptrs[idx := n])];
      }
      assert View() == Attach(old(View()), level, n, idx);
      ok := SetNode(level + 1, parent, if level + 1 < |path| then path[level + 1].pindex else 0);
    }

    /** The end of insert_into_parent: both children and their separator, each child followed up to the root.
        A climb that runs out of pages is not noticed here. */
    method SetPair(level: nat, l: nat, r: nat, key: nat)
      requires PairReady(View(), level)
      modifies `pages, `supply, `gc, `failed, `root, `path
      ensures View() == BptInsert.SetPair(old(View()), level, l, r, key)
    {
      hide BptStore.SetNode;
      hide StoreOk;
      hide Safe;
      ghost var s := View();
      var i := path[level].pindex;
      SetNodeAt(s, level, l, i);
      HalfwayReady(s, level, l, key);
      var _ := SetNode(level, l, i);
      var no := path[level].no;
      pages := pages[no := pages[no].(keys := pages[no].keys[i := key])];
      assert View() == Halfway(s, level, l, key);
      var _ := SetNode(level, r, i + 1);
    }

    /** The right half on a page of its own, the left half in place or on the copy of the branch. */
    method CutInTwo(level: nat) returns (ok: bool, left: nat, right: nat)
      requires level < |path| && BranchAt(pages, path[level].no, path[level].pindex) && 1 <= Middle(pages[path[level].no].keys) <= |pages[path[level].no].keys|
      requires supply != [] ==> supply[0] !in pages
      modifies `pages, `supply, `gc, `failed
      ensures ok <==> old(supply != [] && CanOwn(CutRight(View(), level), path[level].no))
      ensures ok ==> old(supply) != [] && right == old(supply[0])
      ensures ok ==> (View(), left) == CutLeft(CutRight(old(View()), level), path[level].no, Middle(old(pages)[path[level].no].keys))
      ensures !ok ==> View() == (if old(supply) == [] then old(View()) else CutRight(old(View()), level)).(failed := true)
    {
      ghost var s := View();
      var no := path[level].no;
      if supply == [] {
        failed := true;
        return false, 0, 0;
      }
      var page := pages[no];
      var mid := (|page.keys| + 1) / 2;
      right := supply[0];
      supply, pages := supply[1..], pages[right := Branch(xid, page.keys[mid..], page.ptrs[mid..])];
      assert View() == CutRight(s, level);
      left, ok := Own(no);
      if !ok {
        return;
      }
      pages := pages[left := Branch(xid, page.keys[..mid - 1], page.ptrs[..mid])];
    }

    /** The part of insert_into_parent that cuts a full branch and shifts room for a child into one half. */
    method SplitBranch(level: nat, key: nat) returns (ok: bool, left: nat, right: nat, half: nat, idx: nat)
      requires StoreOk(View()) && level < |path| && Safe(View(), level) && FullAt(View(), level) && Agrees(View(), level, key)
      modifies `pages, `supply, `gc, `failed
      ensures ok <==> CanCut(old(View()), level)
      ensures ok ==> Halves(View(), left, right, half, idx) == CutBranch(old(View()), level, key)
      ensures !ok ==> View() == (if old(supply) == [] then old(View()) else CutRight(old(View()), level)).(failed := true)
    {
      hide StoreOk;
      hide Agrees;
      hide Safe;
      hide CutLeft;
      hide CutRight;
      ghost var s := View();
      SplitFacts(s, level, key);
      var no := path[level].no;
      var keys := pages[no].keys;
      var mid := (|keys| + 1) / 2;
      var pivot := keys[mid - 1];
      half, idx := no, path[level].pindex;
      ok, left, right := CutInTwo(level);
      if !ok {
        return;
      }
      CutShape(s, level);
      if key < pivot {
        half := left;
      } else {
        half, idx := right, idx - mid;
      }
      var at := pages[half];
      pages := pages[half := at.(keys := at.keys[..idx] + [0] + at.keys[idx..], ptrs := at.ptrs[..idx + 1] + [0] + at.ptrs[idx + 1..])];
    }

    /** insert_into_parent without a parent: a root with room for two children. */
    method AddRoot()
      requires supply != []
      modifies `pages, `supply, `path
      ensures View() == RootAdded(old(View()))
    {
      var b := supply[0];
      supply, pages, path := supply[1..], pages[b := Branch(xid, [0], [0, 0])], path + [Step(b, 0)];
    }

    /** insert_into_parent where the branch has room: its entries shifted for one more. */
    method WidenBranch(level: nat) returns (ok: bool)
      requires level < |path| && BranchAt(pages, path[level].no, path[level].pindex)
      modifies `pages, `supply, `gc, `failed, `path
      ensures ok == CanOwn(old(View()), old(path[level].no))
      ensures View() == if ok then Widen(old(View()), level) else old(View()).(failed := true)
    {
      var b, i := path[level].no, path[level].pindex;
      b, ok := Own(b);
      if ok {
        var at := pages[b];
        path := path[level := Step(b, i)];
        pages := pages[b := at.(keys := at.keys[..i] + [0] + at.keys[i..], ptrs := at.ptrs[..i + 1] + [0] + at.ptrs[i + 1..])];
      }
    }

    /** The path leads through the half that has the room, and the level above through its slot. */
    method TakePath(level: nat, left: nat, half: nat, idx: nat, ghost h: Halves)
      requires level + 1 < |path| && h.left == left && h.half == half && h.idx == idx
      modifies `path
      ensures View() == Rejoin(old(View()), level, h)
    {
      var up := path[level + 1];
      path := path[level := Step(half, idx)];
      if half != left {
        path := path[level + 1 := Step(up.no, up.pindex + 1)];
      }
    }

    /** insert_into_parent: adds page `r` after page `l` in the branch at `level`, or above both a new root. */
    method InsertIntoParent(level: nat, l: nat, r: nat, key: nat) returns (ok: bool)
      requires StoreOk(View()) && level <= |path| && Safe(View(), level) && Agrees(View(), level, key)
      modifies `pages, `supply, `gc, `failed, `root, `path
      ensures (View(), ok) == BptInsert.InsertIntoParent(old(View()), level, l, r, key)
      decreases |path| - level
    {
      hide Rejoin;
      hide CutRight;
      hide CanCut;
      hide BptInsert.InsertIntoParent;
      hide BptInsert.SetPair;
      hide CutBranch;
      hide Widen;
      hide RootAdded;
      hide PairReady;
      hide StoreOk;
      hide Safe;
      hide Agrees;
      ghost var s := View();
      UnfoldInsert(s, level, l, r, key);
      if level == |path| {
        if supply == [] {
          failed := true;
          return false;
        }
        AddRoot();
      } else if |pages[path[level].no].keys| == o.branch - 1 {
        var keys := pages[path[level].no].keys;
        var cut, left, right, half, idx := SplitBranch(level, key);
        if !cut {
          return false;
        }
        ok := InsertIntoParent(level + 1, left, right, keys[(|keys| + 1) / 2 - 1]);
        if !ok {
          return;
        }
        TakePath(level, left, half, idx, CutBranch(s, level, key));
      } else {
        ok := WidenBranch(level);
        if !ok {
          return;
        }
      }
      SetPair(level, l, r, key);
      ok := true;
    }

    // ---- leaves

    /** set_leaf: hangs the leaf in and, where its first entry changed, rewrites its separator. */
    method SetLeaf(leaf: nat, idx: nat)
      requires StoreOk(View()) && Safe(View(), 0) && LeafAt(View(), leaf) && pages[leaf].ents != [] && pages[leaf].xid == xid
      modifies `pages, `supply, `gc, `failed, `root, `path
      ensures View() == BptSet.SetLeaf(old(View()), leaf, idx)
    {
      hide BptStore.SetNode;
      ghost var s := View();
      SetNodeClimbed(s, 0, leaf, LeafIndex(s));
      var first := pages[leaf].ents[0].key;
      var ok := SetNode(0, leaf, if path == [] then 0 else path[0].pindex);
      if ok && idx == 0 && path != [] && path[0].pindex > 0 {
        var no, i := path[0].no, path[0].pindex - 1;
        pages := pages[no := pages[no].(keys := pages[no].keys[i := first])];
      }
    }

    /** insert_into_leaf on the empty tree. */
    method PutFirst(e: Entry) returns (ok: bool)
      requires StoreOk(View()) && path == []
      modifies `pages, `supply, `gc, `failed, `root, `path, `cur
      ensures var p := BptPut.PutFirst(old(View()), e);
              View() == p.s && ok == p.ok && (ok ==> cur == old(cur).(find := Some(p.find), idx := p.idx))
    {
      hide BptSet.SetLeaf;
      if supply == [] {
        failed := true;
        return false;
      }
      var b := supply[0];
      assert b in supply && b !in supply[1..];
      supply, pages := supply[1..], pages[b := Leaf(xid, [e])];
      SetLeaf(b, 0);
      cur, ok := cur.(find := Some(b), idx := 0), true;
    }

    /** insert_into_leaf where the leaf has room or the entry is replaced. */
    method PutRoom(leaf: nat, e: Entry, replace: bool) returns (ok: bool)
      requires StoreOk(View()) && Safe(View(), 0) && LeafAt(View(), leaf)
      requires cur.idx <= |pages[leaf].ents| && (replace ==> cur.idx < |pages[leaf].ents|)
      modifies `pages, `supply, `gc, `failed, `root, `path, `cur
      ensures var p := BptPut.PutRoom(old(View()), leaf, old(cur.idx), e, replace);
              View() == p.s && ok == p.ok && (ok ==> cur == old(cur).(find := Some(p.find), idx := p.idx))
    {
      hide BptSet.SetLeaf;
      hide Kept;
      var ents, i := pages[leaf].ents, cur.idx;
      if CanOwn(View(), leaf) {
        OwnedSafe(View(), leaf);
      }
      var no;
      no, ok := Own(leaf);
      if !ok {
        return;
      }
      if replace {
        ents := ents[i := e];
      } else {
        ents := ents[..i] + [e] + ents[i..];
      }
      WriteLeafKept(View(), no, ents);
      pages := pages[no := Leaf(xid, ents)];
      cur := cur.(find := Some(no));
      SetLeaf(no, i);
    }

    /** The part of split_leaf that puts both halves of a full leaf on pages of this transaction. */
    method HalveLeaf(leaf: nat, mid: nat) returns (ok: bool, left: nat, right: nat)
      requires StoreOk(View()) && LeafAt(View(), leaf) && mid <= |pages[leaf].ents|
      modifies `pages, `supply, `gc, `failed
      ensures ok == CanHalve(old(View()), leaf)
      ensures ok ==> (View(), left) == BptPut.HalveLeaf(old(View()), leaf, mid) && right == old(supply[0])
      ensures !ok ==> View() == (if old(supply) == [] then old(View()) else HalfRight(old(View()), leaf, mid)).(failed := true)
    {
      if supply == [] {
        failed := true;
        return false, leaf, 0;
      }
      var ents := pages[leaf].ents;
      right := supply[0];
      assert right in supply;
      supply, pages := supply[1..], pages[right := Leaf(xid, ents[mid..])];
      left, ok := Own(leaf);
      if ok {
        pages := pages[left := Leaf(xid, ents[..mid])];
      }
    }

    /** The end of insert_into_leaf after a split: the entry into its half, and the half hung back. */
    method FinishSplit(leaf: nat, goRight: bool, i: nat, e: Entry, idx: nat)
      requires StoreOk(View()) && Safe(View(), 0) && path != [] && Safe(NextStep(View()), 0)
      requires LeafAt(View(), leaf) && pages[leaf].xid == xid && i <= |pages[leaf].ents|
      modifies `pages, `supply, `gc, `failed, `root, `path, `cur
      ensures BptPut.FinishSplit(old(View()), leaf, goRight, i, e, idx) == Put(View(), true, leaf, i)
      ensures cur == old(cur).(find := Some(leaf), idx := i)
    {
      hide BptSet.SetLeaf;
      hide Kept;
      cur := cur.(find := Some(leaf), idx := i);
      if goRight {
        path := path[0 := Step(path[0].no, path[0].pindex + 1)];
      }
      var ents := pages[leaf].ents[..i] + [e] + pages[leaf].ents[i..];
      WriteLeafKept(View(), leaf, ents);
      pages := pages[leaf := Leaf(xid, ents)];
      SetLeaf(leaf, idx);
    }

    /** insert_into_leaf and split_leaf on a full leaf, cut before entry `mid`. */
    method PutSplit(leaf: nat, key: nat, mid: nat, e: Entry) returns (ok: bool)
      requires StoreOk(View()) && Safe(View(), 0) && LeafAt(View(), leaf)
      requires cur.idx <= |pages[leaf].ents| && 0 < mid < |pages[leaf].ents|
      requires CanHalve(View(), leaf) ==>
                 Safe(BptPut.HalveLeaf(View(), leaf, mid).0, 0) && BptPut.HalveLeaf(View(), leaf, mid).0.o.branch >= 4 &&
                 Agrees(BptPut.HalveLeaf(View(), leaf, mid).0, 0, SplitKey(pages[leaf].ents, key, cur.idx, mid))
      modifies `pages, `supply, `gc, `failed, `root, `path, `cur
      ensures var p := BptPut.PutSplit(old(View()), leaf, old(cur.idx), key, mid, e);
              View() == p.s && ok == p.ok && (ok ==> cur == old(cur).(find := Some(p.find), idx := p.idx))
    {
      hide BptPut.HalveLeaf;
      hide BptPut.FinishSplit;
      hide BptInsert.InsertIntoParent;
      hide StoreOk;
      hide Safe;
      hide Agrees;
      hide Kept;
      ghost var s := View();
      var ents, idx := pages[leaf].ents, cur.idx;
      var rkey := if mid == idx then key else ents[mid].key;
      var left, right;
      ok, left, right := HalveLeaf(leaf, mid);
      if !ok {
        return;
      }
      HalvedReady(s, leaf, mid);
      HalvedCareful(View(), left, right, rkey, idx, mid, e);
      ok := InsertIntoParent(0, left, right, rkey);
      if !ok {
        return;
      }
      if idx < mid {
        FinishSplit(left, false, idx, e, idx);
      } else {
        FinishSplit(right, true, idx - mid, e, idx);
      }
    }

    /** split_point: where to cut the leaf entries `ents`, or None when all keys are equal. */
    static method SplitPoint(ents: seq<Entry>, key: nat, idx: nat, nm: nat) returns (r: Option<nat>)
      requires |ents| >= 2 && idx <= |ents| && nm <= idx + 1 && (nm > 0 ==> idx < |ents|)
      ensures r == BptLeaf.SplitPoint(ents, key, idx, nm)
    {
      var n, mid := |ents|, |ents| / 2;
      var k, min, max := key, idx - nm + 1, idx + 1;
      if !(nm > 0 && mid <= idx && mid >= idx - nm + 1) {
        k, max := ents[mid].key, mid + 1;
        if k != key {
          min := mid;
          while min > 0 && ents[min - 1].key == k
            invariant 0 <= min <= mid && ents[min].key == k && RunStart(ents, min) == RunStart(ents, mid)
          {
            min := min - 1;
          }
        }
      }
      if min == mid {
        return Some(mid);
      }
      ghost var from := max;
      while max < n && ents[max].key == k
        invariant from <= max <= n && RunEnd(ents, max, k) == RunEnd(ents, from, k)
      {
        max := max + 1;
      }
      if min == 0 && max == n {
        return None;
      }
      r := Some(if min >= n - max then min else max);
    }

    /** The three cases of insert_into_leaf that put an entry. */
    method InsertIntoEmpty(e: Entry) returns (rc: Rc)
      requires Valid() && !failed && cur.hasfind && cur.find == None && e.key <= KEY_MAX
      modifies `pages, `supply, `gc, `failed, `root, `path, `cur, `place
      ensures rc == Ok || rc == NoPages
      ensures Careful(old(View()), View()) && (rc == NoPages ==> failed)
      ensures rc == Ok ==> cur == old(cur).(find := cur.find, idx := cur.idx)
      ensures !failed ==> SetDone(old(View()), old(place), 0, View(), cur.find, cur.idx, place, e, false)
      ensures Paid(old(View()), View(), SetCost(old(place), o, xid, false)) && (!failed ==> rc == Ok) && |path| <= 1
    {
      hide BptPut.PutFirst;
      hide Outcome;
      hide Rooted;
      hide Zip;
      hide Careful;
      ghost var s := View();
      EmptyPlace(s, cur, place);
      PutFirstCareful(s, e);
      FirstPaid(s, e);
      FirstFailed(s, e);
      var ok := PutFirst(e);
      if !failed {
        ghost var leaf := FirstOutcome(s, e);
        place := Place(Some(Plug([], leaf)), [], leaf);
      }
      rc := if ok then Ok else NoPages;
    }

    method InsertIntoRoom(e: Entry, replacing: bool) returns (rc: Rc)
      requires Valid() && !failed && cur.hasfind && cur.find != None
      requires Settable(cur, place, o, e, replacing) && !Full(place, o, replacing)
      modifies `pages, `supply, `gc, `failed, `root, `path, `cur, `place
      ensures rc == Ok || rc == NoPages
      ensures Careful(old(View()), View()) && (rc == NoPages ==> failed)
      ensures rc == Ok ==> cur == old(cur).(find := cur.find, idx := cur.idx)
      ensures !failed ==> SetDone(old(View()), old(place), old(Pos(cur, place)), View(), cur.find, cur.idx, place, e, replacing)
      ensures Paid(old(View()), View(), SetCost(old(place), o, xid, replacing)) && (!failed ==> rc == Ok) && |path| <= |old(path)| + 1
    {
      hide Paid;
      hide BptPut.PutRoom;
      hide Outcome;
      hide Rooted;
      hide Zip;
      hide Careful;
      hide Plug;
      hide Before;
      hide StoreOk;
      hide Safe;
      hide Fits;
      hide PathLow;
      hide PathHigh;
      hide Growth;
      hide AtKey;
      hide BptLeaf.SplitPoint;
      ghost var s, was, i := View(), place, cur.idx;
      LeafPlace(s, cur, place);
      PutRoomCareful(s, was.leaf.no, i, e, replacing);
      RoomPaid(s, was.leaf.no, i, e, replacing);
      RoomCost(s, was, replacing);
      RoomLength(s, was.leaf.no, i, e, replacing);
      RoomFailed(s, was.leaf.no, i, e, replacing);
      var ok := PutRoom(cur.find.value, e, replacing);
      if !failed {
        ghost var gs, leaf := RoomEdited(s, was.fs, was.leaf, i, e, replacing);
        place := Place(Some(Plug(gs, leaf)), gs, leaf);
      }
      rc := if ok then Ok else NoPages;
    }

    method InsertIntoFull(e: Entry) returns (rc: Rc)
      requires Valid() && !failed && cur.hasfind && cur.find != None
      requires Settable(cur, place, o, e, false) && Full(place, o, false)
      modifies `pages, `supply, `gc, `failed, `root, `path, `cur, `place
      ensures rc == Ok || rc == NoPages || rc == DupKey
      ensures rc == DupKey <==> old(NoCut(cur, place))
      ensures rc == DupKey ==> View() == old(View()) && cur == old(cur) && place == old(place)
      ensures Careful(old(View()), View()) && (rc == NoPages ==> failed)
      ensures rc == Ok ==> cur == old(cur).(find := cur.find, idx := cur.idx)
      ensures rc != DupKey && !failed ==> SetDone(old(View()), old(place), old(Pos(cur, place)), View(), cur.find, cur.idx, place, e, false)
      ensures rc != DupKey ==> Paid(old(View()), View(), SetCost(old(place), o, xid, false)) && (!failed ==> rc == Ok) && |path| <= |old(path)| + 1
    {
      hide Paid;
      hide BptPut.PutSplit;
      hide BptPut.HalveLeaf;
      hide Outcome;
      hide Rooted;
      hide Zip;
      hide Careful;
      hide Plug;
      hide Before;
      hide StoreOk;
      hide Safe;
      hide Fits;
      hide PathLow;
      hide PathHigh;
      hide Growth;
      hide AtKey;
      hide Agrees;
      hide AllEqual;
      hide BptLeaf.SplitPoint;
      ghost var s, was, i := View(), place, cur.idx;
      LeafPlace(s, cur, place);
      ghost var ents := was.leaf.ents;
      var mid := SplitPoint(pages[cur.find.value].ents, cur.key, cur.idx, cur.nmatches);
      if mid == None {
        CarefulSelf(s);
        return DupKey;
      }
      FullReady(s, was.fs, was.leaf, i, cur.key, mid.value, e);
      PutSplitCareful(s, was.leaf.no, i, cur.key, mid.value, e);
      FullFailed(s, was.leaf.no, i, cur.key, mid.value, e);
      SplitPaid(s, was.leaf.no, i, cur.key, mid.value, e);
      FullCost(s, was);
      SplitLength(s, was.leaf.no, i, cur.key, mid.value, e);
      var k := cur.key;
      var ok := PutSplit(cur.find.value, cur.key, mid.value, e);
      if !failed {
        ghost var gs, leaf := SplitEdited(s, was.fs, was.leaf, i, k, mid.value, e);
        place := Place(Some(Plug(gs, leaf)), gs, leaf);
      }
      rc := if ok then Ok else NoPages;
    }

    /** insert_into_leaf. */
    method InsertIntoLeaf(e: Entry, replace: bool) returns (rc: Rc)
      requires Valid() && !failed && cur.hasfind && e.key <= KEY_MAX
      requires Settable(cur, place, o, e, replace && place.tree.Some?)
      modifies `pages, `supply, `gc, `failed, `root, `path, `cur, `place
      ensures rc == Ok || rc == NoPages || rc == DupKey
      ensures rc == DupKey <==> old(Full(place, o, replace) && NoCut(cur, place))
      ensures rc == DupKey ==> View() == old(View()) && cur == old(cur) && place == old(place)
      ensures Careful(old(View()), View()) && (rc == NoPages ==> failed)
      ensures rc == Ok ==> cur == old(cur).(find := cur.find, idx := cur.idx)
      ensures rc != DupKey && !failed ==>
                SetDone(old(View()), old(place), old(Pos(cur, place)), View(), cur.find, cur.idx, place, e, replace && old(place.tree.Some?))
      ensures rc != DupKey ==> Paid(old(View()), View(), SetCost(old(place), o, xid, replace && old(place.tree.Some?))) && (!failed ==> rc == Ok)
      ensures |path| <= |old(path)| + 1
    {
      hide Paid;
      hide SetCost;
      hide Standing;
      hide Settable;
      hide SetDone;
      hide AllEqual;
      hide Careful;
      PlaceKind(View(), cur, place);
      if cur.find == None {
        rc := InsertIntoEmpty(e);
      } else if !replace && |pages[cur.find.value].ents| == o.leaf {
        rc := InsertIntoFull(e);
      } else {
        rc := InsertIntoRoom(e, replace);
      }
    }

    /** ed_bpt_set: puts `e` at the cursor, or over the matched entry there. */
    method Set(e: Entry, replace: bool) returns (rc: Rc)
      requires Valid() && e.key <= KEY_MAX
      requires Accepted(View(), cur, e) ==> Settable(cur, place, o, e, Replacing(cur, place, replace))
      modifies `pages, `supply, `gc, `failed, `root, `path, `cur, `place
      ensures Valid()
      ensures rc == ReadOnly <==> old(failed)
      ensures rc == ReadOnly || rc == KeyMatch <==> !old(Accepted(View(), cur, e))
      ensures rc == DupKey <==> old(Accepted(View(), cur, e) && Full(place, o, Replacing(cur, place, replace)) && NoCut(cur, place))
      ensures rc == ReadOnly || rc == KeyMatch ==> View() == old(View()) && cur == old(cur) && place == old(place)
      ensures rc == DupKey ==> View() == old(View()).(failed := true)
      ensures (rc == NoPages ==> failed) && rc != Crashed
      ensures CopyOnWrite(old(pages), pages, xid) && NoneAdded(old(supply), supply)
      ensures failed ==> old(failed) || rc == DupKey || supply == []
      ensures rc == Ok && !failed ==>
                var replacing := Replacing(old(cur), old(place), replace);
                && SetDone(old(View()), old(place), old(Pos(cur, place)), View(), cur.find, cur.idx, place, e, replacing)
                && cur.key == cur.kmax == e.key && cur.kmin == old(cur.kmin) && cur.matched == cur.nmatches == 1
                && cur.hasfind && cur.haskey && cur.hasentry && cur.nsplits == cur.nloops == 0
                && cur.startPage == old(cur.startPage) && cur.startIndex == old(cur.startIndex)
      // it takes what it costs, and succeeds exactly if there is as much
      ensures old(Accepted(View(), cur, e)) && rc != DupKey ==>
                Paid(old(View()), View(), SetCost(old(place), o, xid, old(Replacing(cur, place, replace)))) && (!failed ==> rc == Ok)
      ensures rc == Ok && !failed ==> Levels(place.tree) <= Levels(old(place.tree)) + 1
    {
      hide Paid;
      hide SetCost;
      hide Flatten;
      hide Pages;
      hide Bag;
      hide Pos;
      hide Safe;
      hide Standing;
      hide Settable;
      hide SetDone;
      hide StoreOk;
      hide AllEqual;
      hide Careful;
      hide CopyOnWrite;
      hide Before;
      if failed {
        CopyOnWriteSelf(View());
        return ReadOnly;
      }
      if !cur.hasfind || e.key < cur.kmin || e.key > cur.kmax {
        CopyOnWriteSelf(View());
        return KeyMatch;
      }
      ghost var s, was, c := View(), place, cur;
      PlaceKind(s, cur, place);
      var replacing := replace && cur.matched == 1;
      rc := InsertIntoLeaf(e, replacing);
      CarefulFacts(s, View());
      if rc != Ok {
        ghost var t := View();
        failed := true;
        FailedStanding(View(), cur, place);
        assert rc != DupKey ==> t == View();
        return;
      }
      cur := cur.(key := e.key, kmax := e.key, nsplits := 0, matched := 1, nmatches := 1, nloops := 0, haskey := true, hasentry := true);
      if failed {
        FailedStanding(View(), cur, place);
      } else {
        DoneStanding(s, was, Pos(c, was), View(), cur, place, e, Replacing(c, was, replace));
        LevelsOf(s, c, was);
        LevelsOf(View(), cur, place);
      }
    }

    // ---- deleting

    /** The part of ed_bpt_del that changes pages. */
    method Remove() returns (ok: bool)
      requires StoreOk(View()) && Safe(View(), 0) && cur.find.Some? && LeafAt(View(), cur.find.value)
      requires cur.idx < |pages[cur.find.value].ents|
      modifies `pages, `supply, `gc, `failed, `root, `path, `cur
      ensures var p := DelAt(old(View()), old(cur.find.value), old(cur.idx));
              View() == p.s && ok == p.ok && cur == (if ok then old(cur).(find := Some(p.find)) else old(cur)) && (ok ==> cur.idx == p.idx)
    {
      hide BptStore.SetNode;
      hide Kept;
      var no, i := cur.find.value, cur.idx;
      var ents := pages[no].ents;
      ghost var s := View();
      if pages[no].xid != xid {
        if supply != [] {
          OwnedSafe(View(), no);
        }
        no, ok := Own(no);
        if !ok {
          return;
        }
        SetNodeClimbed(View(), 0, no, LeafIndex(View()));
        ghost var s1 := View();
        ok := SetNode(0, no, if path == [] then 0 else path[0].pindex);
        if !ok {
          return;
        }
      }
      pages := pages[no := Leaf(xid, ents[..i] + ents[i + 1..])];
      cur, ok := cur.(find := Some(no)), true;
    }

    /** ed_bpt_del once there is an entry under the cursor. */
    method TakeOut() returns (ok: bool)
      requires Valid() && !failed && cur.hasfind && cur.hasentry && !Stale(cur, place)
      modifies `pages, `supply, `gc, `failed, `root, `path, `cur, `place
      ensures Careful(old(View()), View()) && ok == !failed
      ensures !ok ==> cur == old(cur) && place == old(place)
      ensures ok ==> DelDone(old(View()), old(cur), old(place), View(), cur, place)
      ensures Paid(old(View()), View(), DelCost(old(place), xid)) && |path| == |old(path)|
    {
      hide Paid;
      hide Standing;
      hide Removed;
      hide Zip;
      hide StoreOk;
      hide Safe;
      hide Careful;
      hide DelAt;
      hide Before;
      hide AtWindow;
      hide FindKmax;
      hide Rooted;
      hide Plug;
      hide RemoveAt;
      ghost var s, was, c := View(), place, cur;
      EntryPlace(s, c, was);
      DelCareful(s, was.leaf.no, c.idx);
      DelPaid(s, was.leaf.no, c.idx);
      TakeCost(s, was);
      DelLength(s, was.leaf.no, c.idx);
      ok := Remove();
      if !ok {
        return;
      }
      DelOk(s, was.leaf.no, c.idx);
      ghost var gs, leaf := DelRemoved(s, c, was);
      place := Place(Some(Plug(gs, leaf)), gs, leaf);
      RemovedPlace(s, c, was, View(), gs, leaf);
      var ents := pages[cur.find.value].ents;
      var top := UpperKey(View());
      cur := cur.(kmax := if cur.idx == |ents| then top else ents[cur.idx].key, nmatches := 0, hasentry := false);
      RemovedStanding(s, c, was, View(), gs, leaf, cur);
    }

    /** ed_bpt_del: takes out the entry under the cursor, if there is one; `n` counts it. In a leaf without entries it
        moves minus one of them. */
    method Del() returns (rc: Rc, n: nat)
      requires Valid()
      modifies `pages, `supply, `gc, `failed, `root, `path, `cur, `place
      ensures Valid()
      ensures rc == ReadOnly <==> old(failed || !cur.hasfind)
      ensures rc == Crashed <==> old(!failed && cur.hasfind && Stale(cur, place))
      ensures rc == NoPages <==> old(!failed && cur.hasfind && cur.hasentry && !Stale(cur, place)) && failed
      ensures n <= 1 && (n == 1 <==> !old(failed) && old(cur.hasfind && cur.hasentry) && !failed)
      ensures rc == NoPages || rc == Crashed ==> failed
      ensures n == 0 && rc != NoPages && rc != Crashed ==> View() == old(View()) && cur == old(cur) && place == old(place)
      ensures n == 1 ==> rc == Ok && DelDone(old(View()), old(cur), old(place), View(), cur, place)
      ensures CopyOnWrite(old(pages), pages, xid) && NoneAdded(old(supply), supply)
      ensures failed ==> old(failed) || rc == Crashed || (rc == NoPages && supply == [])
      ensures old(!failed && cur.hasfind && cur.hasentry && !Stale(cur, place)) ==> Paid(old(View()), View(), DelCost(old(place), xid)) && |path| == |old(path)|
    {
      hide Paid;
      hide DelCost;
      hide Standing;
      hide StoreOk;
      hide CopyOnWrite;
      hide Careful;
      hide DelDone;
      n := 0;
      if failed || !cur.hasfind {
        CopyOnWriteSelf(View());
        return ReadOnly, 0;
      }
      if !cur.hasentry {
        CopyOnWriteSelf(View());
        return Ok, 0;
      }
      ghost var s, was, c := View(), place, cur;
      ShownPlace(s, c, was);
      if pages[cur.find.value].ents == [] {
        CopyOnWriteSelf(View());
        failed := true;
        FailedStanding(View(), cur, place);
        return Crashed, 0;
      }
      var ok := TakeOut();
      CarefulFacts(s, View());
      if !ok {
        FailedStanding(View(), cur, place);
        return NoPages, 0;
      }
      DelDoneStanding(s, c, was, View(), cur, place);
      rc, n := Ok, 1;
    }

    // ---- search and edit together

    /** A fresh write transaction over a committed tree and the pages it may use. */
    constructor (s: Txn, ghost tree: Option<Tree>)
      requires Rooted(s, tree) && !s.failed && s.path == []
      ensures Valid() && !failed && View() == s && place.tree == tree && !cur.hasfind
    {
      o, xid, pages, supply, gc, failed, root, path := s.o, s.xid, s.pages, s.supply, s.gc, s.failed, s.root, s.path;
      cur := Cursor(s.root, 0, 0, 0, 0, 0, 0, 0, 0, false, false, false, None, 0);
      place := Place(tree, [], TLeaf(0, 0, []));
    }

    /** ed_bpt_find of a key and ed_bpt_set of an entry with that key: the entry goes before the first
        entry whose key is not smaller, or over the first match, and the tree grows by what find foretold. */
    method FindSet(e: Entry, replace: bool) returns (rc: Rc, found: nat, nsplits: nat, ghost pos: nat)
      requires Valid() && !failed && e.key <= KEY_MAX
      modifies `pages, `supply, `gc, `failed, `root, `path, `cur, `place
      ensures Valid() && LowerBound(old(Contents()), e.key, pos)
      ensures found == if exists x | x in old(Contents()) :: x.key == e.key then 1 else 0
      ensures rc == Ok || rc == DupKey || rc == NoPages
      ensures rc != Ok ==> failed
      ensures failed ==> rc == DupKey || supply == []
      ensures rc == DupKey ==> pages == old(pages) && !(replace && found == 1) && nsplits > 0
      ensures pos <= |old(Contents())| && (found == 1 ==> pos < |old(Contents())|)
      ensures !failed ==> Contents() == if replace && found == 1 then old(Contents())[pos := e] else old(Contents())[..pos] + [e] + old(Contents())[pos..]
      ensures !failed ==> Pos(cur, place) == pos && pos < |Contents()| && Contents()[pos] == e
      ensures !failed ==> Size(place.tree) == old(Size(place.tree)) + if replace && found == 1 then 0 else nsplits
      ensures !failed ==> Pages(View(), place.tree) == old(Pages(View(), place.tree))
      ensures CopyOnWrite(old(pages), pages, xid) && NoneAdded(old(supply), supply)
      // refused exactly by a full leaf of one key; otherwise it succeeds exactly if the pages it costs are there
      ensures var p := Found(old(place.tree), e.key);
              rc == DupKey <==>
              p.tree.Some? && !(replace && found == 1) && p.leaf.TLeaf? && |p.leaf.ents| == o.leaf && forall x | x in p.leaf.ents :: x.key == p.leaf.ents[0].key
      ensures var cost := SetCost(Found(old(place.tree), e.key), o, xid, replace && found == 1);
              && (!failed <==> rc != DupKey && |old(supply)| >= cost) && (!failed ==> rc == Ok && supply == old(supply)[cost..])
              && cost <= 2 * Levels(old(place.tree)) + 3
      ensures (forall q | q in old(supply) :: q in supply || q in pages) && (!failed ==> Levels(place.tree) <= Levels(old(place.tree)) + 1)
      ensures rc == DupKey ==> !Uncrowded(old(Contents()), o.leaf)
    {
      hide Uncrowded;
      hide Way;
      hide Levels;
      hide SetCost;
      hide Standing;
      hide LowerBound;
      hide CopyOnWrite;
      hide SetDone;
      hide Settable;
      hide StoreOk;
      hide AtSearch;
      hide AtWindow;
      hide AllEqual;
      hide Predicted;
      hide Full;
      ghost var s := View();
      found := Find(e.key);
      nsplits, pos := cur.nsplits, Pos(cur, place);
      BoundWithin(Contents(), e.key, pos);
      ghost var s1, was, c := View(), place, cur;
      PathFree(s, View(), place.tree);
      SearchSettable(View(), cur, place, e, Replacing(cur, place, replace));
      FullPredicted(place, o, Replacing(cur, place, replace));
      FullOfOne(View(), cur, place, Replacing(cur, place, replace));
      CostBound(View(), cur, place, Replacing(cur, place, replace));
      Crowded(View(), cur, place);
      rc := Set(e, replace);
      if rc == Ok && !failed {
        SetDoneFacts(s1, was, pos, View(), cur, place, e, Replacing(c, was, replace));
      }
    }

    /** ed_bpt_find of a key and ed_bpt_del of the entry it finds. */
    method FindDel(k: nat) returns (rc: Rc, n: nat, ghost pos: nat)
      requires Valid() && !failed && k <= KEY_MAX
      modifies `pages, `supply, `gc, `failed, `root, `path, `cur, `place
      ensures Valid() && LowerBound(old(Contents()), k, pos)
      ensures !failed ==> n == if exists x | x in old(Contents()) :: x.key == k then 1 else 0
      ensures n == 1 ==> pos < |old(Contents())| && old(Contents())[pos].key == k && Contents() == old(Contents())[..pos] + old(Contents())[pos + 1..]
      ensures !failed && n != 1 ==> Contents() == old(Contents())
      ensures !failed ==> Pages(View(), place.tree) == old(Pages(View(), place.tree)) && Size(place.tree) == old(Size(place.tree))
      ensures failed ==> supply == []
      ensures CopyOnWrite(old(pages), pages, xid) && NoneAdded(old(supply), supply)
      // it succeeds exactly if the pages it costs are there
      ensures var cost := if exists x | x in old(Contents()) :: x.key == k then DelCost(Found(old(place.tree), k), xid) else 0;
              (!failed <==> |old(supply)| >= cost) && (!failed ==> supply == old(supply)[cost..]) && cost <= Levels(old(place.tree)) + 1
      ensures (forall q | q in old(supply) :: q in supply || q in pages) && (!failed ==> Levels(place.tree) == Levels(old(place.tree)))
    {
      hide Way;
      hide Levels;
      hide DelCost;
      hide Standing;
      hide LowerBound;
      hide CopyOnWrite;
      hide StoreOk;
      hide AtSearch;
      hide AtWindow;
      hide Predicted;
      hide Started;
      ghost var s := View();
      var found := Find(k);
      pos := Pos(cur, place);
      PathFree(s, View(), place.tree);
      ghost var s1, c, was := View(), cur, place;
      CostBound(s1, c, was, false);
      LevelsOf(s1, c, was);
      rc, n := Del();
      if n == 1 {
        DelDoneFacts(s1, c, was, View(), cur, place);
        LevelsOf(View(), cur, place);
      }
    }

    /** Any run of searches with edits does to the tree what the list of all entries undergoes; it stops
        early only on a failed edit, and at every point no page of an older transaction has changed. */
    method Run(ops: seq<Op>) returns (done: nat)
      requires Valid() && !failed && forall op | op in ops :: op.Key() <= KEY_MAX
      modifies `pages, `supply, `gc, `failed, `root, `path, `cur, `place
      ensures Valid() && done <= |ops| && (done < |ops| <==> failed)
      ensures !failed ==> Contents() == ApplyAll(old(Contents()), ops)
      ensures !failed ==> Pages(View(), place.tree) == old(Pages(View(), place.tree))
      ensures CopyOnWrite(old(pages), pages, xid) && NoneAdded(old(supply), supply)
      // with enough pages, and no key as often as a leaf is full, all of them are done
      ensures (&& |old(supply)| >= |ops| * (2 * (Levels(old(place.tree)) + |ops|) + 3)
               && forall i | 0 <= i < |ops| :: Uncrowded(ApplyAll(old(Contents()), ops[..i]), o.leaf)) ==> done == |ops|
    {
      hide Uncrowded;
      hide Levels;
      hide Found;
      hide SetCost;
      hide DelCost;
      hide Pages;
      hide Flatten;
      hide Bag;
      hide Loose;
      hide Before;
      hide Standing;
      hide CopyOnWrite;
      hide Apply;
      hide LowerBound;
      hide StoreOk;
      done := 0;
      CopyOnWriteSelf(View());
      ghost var first := pages;
      assert ops[..0] == [];
      ghost var most := 2 * (Levels(place.tree) + |ops|) + 3;
      while done < |ops|
        invariant Valid() && !failed && done <= |ops|
        invariant Levels(place.tree) <= Levels(old(place.tree)) + done && |supply| + done * most >= |old(supply)|
        invariant Contents() == ApplyAll(old(Contents()), ops[..done])
        invariant Pages(View(), place.tree) == old(Pages(View(), place.tree))
        invariant CopyOnWrite(old(pages), pages, xid) && NoneAdded(old(supply), supply)
      {
        ghost var all, before, pos := Contents(), pages, 0;
        Increase(done, |ops|, most);
        var op := ops[done];
        assert op in ops;
        assert ops[..done + 1] == ops[..done] + [op];
        match op {
          case Insert(e, replace) =>
            var _, _, _, at := FindSet(e, replace);
            pos := at;
          case Delete(k) =>
            var _, _, at := FindDel(k);
            pos := at;
        }
        CopyOnWriteTrans(first, before, pages, xid);
        if failed {
          return;
        }
        ApplyAt(all, op, pos);
        done := done + 1;
      }
      assert ops[..done] == ops;
    }

    // ---- walking

    /** ed_bpt_first: on the first entry, or on the first slot of a leaf without entries. Without a tree it reads
        where no page is mapped. */
    method First() returns (rc: Rc)
      requires Valid()
      modifies `path, `cur, `place, `failed
      ensures Valid() && place.tree == old(place.tree)
      ensures rc == Crashed <==> !old(failed) && place.tree.None?
      ensures failed <==> old(failed) || rc == Crashed
      ensures !failed ==>
                && cur.hasfind && cur.hasentry && place.tree.Some? && Pos(cur, place) == 0 && AtWindow(cur, place) && cur.nloops == 0
                && cur.matched == cur.nmatches == 0 && cur.haskey == old(cur.haskey) && cur.key == old(cur.key)
                && (if HasEntry(FirstLeaf(place.tree.value)) then OnEntry(View(), cur, place) && Started(cur, place) && StartPos(cur, place) == 0
                    else Stale(cur, place))
    {
      hide Flatten;
      hide StartOf;
      hide PageAt;
      hide Height;
      hide Bag;
      hide Rooted;
      hide Zip;
      hide Before;
      hide Plug;
      hide PathLow;
      hide PathHigh;
      hide StoreOk;
      hide Descended;
      hide FirstLeaf;
      rc := Ok;
      if failed {
        cur := *;
        return;
      }
      RootKind(View(), place.tree);
      if root == None {
        failed := true;
        FailedStanding(View(), cur, place);
        return Crashed;
      }
      ghost var tree := place.tree.value;
      FromRoot(View(), tree);
      ghost var fs, leaf;
      var p, no, hi;
      p, no, hi, fs, leaf := MoveFirst(View(), [], root.value, KEY_MAX, tree, [], tree, Height(tree));
      LeafWithin(View().(path := p), tree, fs, leaf);
      ArriveIn(View(), p, tree, fs, leaf);
      WindowNat(View().(path := p), fs, leaf);
      if leaf.ents != [] {
        ArriveAt(View(), p, tree, fs, leaf, 0);
      }
      path := p;
      place := Place(place.tree, fs, leaf);
      cur := cur.(find := Some(no), idx := 0, kmin := 0, kmax := hi, hasentry := true, matched := 0, nmatches := 0,
                  startPage := Some(no), startIndex := 0, nloops := 0, hasfind := true);
    }

    /** ed_bpt_last, unless the last leaf has no entries. */
    method Last() returns (rc: Rc)
      requires Valid() && (!failed && place.tree.Some? ==> HasEntry(LastLeaf(place.tree.value)))
      modifies `path, `cur, `place, `failed
      ensures Valid() && place.tree == old(place.tree)
      ensures rc == Crashed <==> !old(failed) && place.tree.None?
      ensures failed <==> old(failed) || rc == Crashed
      ensures !failed ==>
                && OnEntry(View(), cur, place) && Pos(cur, place) + 1 == |Contents()|
                && Started(cur, place) && StartPos(cur, place) == Pos(cur, place) && cur.nloops == 0
                && cur.matched == cur.nmatches == 0 && cur.haskey == old(cur.haskey) && cur.key == old(cur.key)
                && Pos(cur, place) < |Contents()| && cur.kmin == Contents()[Pos(cur, place)].key && cur.kmax == KEY_MAX
    {
      hide Distinct;
      hide Stored;
      hide Loose;
      hide Flatten;
      hide StartOf;
      hide PageAt;
      hide Height;
      hide Bag;
      hide Rooted;
      hide Zip;
      hide Before;
      hide Plug;
      hide PathLow;
      hide PathHigh;
      hide StoreOk;
      hide Descended;
      hide LastLeaf;
      rc := Ok;
      if failed {
        cur := *;
        return;
      }
      RootKind(View(), place.tree);
      if root == None {
        failed := true;
        FailedStanding(View(), cur, place);
        return Crashed;
      }
      ghost var tree := place.tree.value;
      FromRoot(View(), tree);
      ghost var fs, leaf;
      var p, no, lo;
      p, no, lo, fs, leaf := MoveLast(View(), [], root.value, 0, tree, [], tree, Height(tree));
      ArriveAt(View(), p, tree, fs, leaf, |leaf.ents| - 1);
      ZipFacts(View().(path := p), fs, leaf);
      path := p;
      place := Place(place.tree, fs, leaf);
      var i := |pages[no].ents| - 1;
      cur := cur.(find := Some(no), idx := i, kmin := lo, kmax := KEY_MAX, hasentry := true, matched := 0, nmatches := 0,
                  startPage := Some(no), startIndex := i, nloops := 0, hasfind := true);
    }

    /** The part of ed_bpt_next that moves: to the next entry, or to the first slot of a leaf without entries. */
    method StepRight()
      requires Valid() && !failed && cur.hasfind && place.tree.Some?
      modifies `path, `cur, `place
      ensures Moved(View(), old(cur), old(place), cur, place) && cur.hasentry
      ensures Stale(cur, place) <==> !old(CanNext(cur, place))
      ensures var n := Pos(old(cur), old(place)) + if old(OnEntry(View(), cur, place)) then 1 else 0;
              && n <= |Contents()| && (Pos(cur, place) == n || (n == |Contents()| && Pos(cur, place) == 0))
              && (!Stale(cur, place) ==> Pos(cur, place) == if n < |Contents()| then n else 0)
      ensures old(AtWindow(cur, place)) ==> AtWindow(cur, place)
      ensures SteppedRight(old(cur), old(place), cur, place)
      ensures cur.matched == if old(cur).idx + (if old(cur).hasentry then 1 else 0) < |old(place).leaf.ents| then old(cur).matched else 0
    {
      hide Rooted;
      hide Zip;
      hide Before;
      hide Plug;
      hide PathLow;
      hide PathHigh;
      hide StoreOk;
      hide Descended;
      hide LeafAfter;
      hide Flatten;
      ghost var s, tree, fs, leaf := View(), place.tree.value, place.fs, place.leaf;
      WalkPlace(s, cur, place);
      var no := cur.find.value;
      var ents, i := pages[no].ents, cur.idx + if cur.hasentry then 1 else 0;
      if i >= |ents| {
        var p, lo, hi;
        ghost var gs, next;
        p, no, lo, hi, gs, next := MoveRight(View(), path, no, tree, fs, leaf);
        ArriveIn(s, p, tree, gs, next);
        WindowNat(s.(path := p), gs, next);
        path := p;
        place := Place(place.tree, gs, next);
        cur := cur.(find := Some(no), idx := 0, kmin := lo, kmax := hi, hasentry := true, matched := 0, nmatches := 0);
      } else if cur.hasentry {
        cur := cur.(idx := i, kmin := cur.kmax, kmax := ents[i].key);
      } else {
        cur := cur.(hasentry := true);
      }
    }

    /** The part of ed_bpt_prev that moves. */
    method StepLeft()
      requires Valid() && !failed && cur.hasfind && place.tree.Some? && CanPrev(cur, place)
      modifies `path, `cur, `place
      ensures Moved(View(), old(cur), old(place), cur, place) && OnEntry(View(), cur, place)
      ensures Pos(cur, place) == (if Pos(old(cur), old(place)) > 0 then Pos(old(cur), old(place)) else |Contents()|) - 1
      ensures SteppedLeft(old(cur), old(place), cur, place) && cur.matched == if old(cur).idx > 0 then old(cur).matched else 0
    {
      hide Rooted;
      hide Zip;
      hide Before;
      hide Plug;
      hide PathLow;
      hide PathHigh;
      hide StoreOk;
      hide Descended;
      hide LeafBefore;
      hide Flatten;
      ghost var s, tree, fs, leaf := View(), place.tree.value, place.fs, place.leaf;
      WalkPlace(s, cur, place);
      var no := cur.find.value;
      if cur.idx == 0 {
        var p, lo, hi;
        ghost var gs, next;
        p, no, lo, hi, gs, next := MoveLeft(View(), path, no, tree, fs, leaf);
        ArriveAt(s, p, tree, gs, next, |next.ents| - 1);
        path := p;
        place := Place(place.tree, gs, next);
        cur := cur.(find := Some(no), idx := |pages[no].ents| - 1, kmin := lo, kmax := hi, hasentry := true, matched := 0, nmatches := 0);
      } else {
        cur := cur.(idx := cur.idx - 1, kmax := cur.kmin, kmin := pages[no].ents[cur.idx - 1].key, hasentry := true);
      }
    }

    /** The end of ed_bpt_next and ed_bpt_prev: whether the key still matches, and whether the walk is round. In a
        leaf without entries the slot shown holds the key `left`. */
    method Visit(left: nat) returns (m: nat)
      requires Valid() && !failed && cur.hasfind && cur.hasentry
      modifies `cur
      ensures Valid() && cur.hasentry && Pos(cur, place) == Pos(old(cur), place) && Stale(cur, place) == Stale(old(cur), place)
      ensures cur == old(cur).(haskey := m == 1, nmatches := old(cur.nmatches) + m, matched := m, nloops := cur.nloops)
      ensures !Stale(cur, place) ==> Pos(cur, place) < |Contents()|
      ensures m == if old(cur.haskey) && (if Stale(cur, place) then left else Contents()[Pos(cur, place)].key) == old(cur.key) then 1 else 0
      ensures Started(old(cur), place) ==>
                && Started(cur, place) && StartPos(cur, place) == StartPos(old(cur), place)
                && cur.nloops == old(cur.nloops) + if !Stale(cur, place) && Pos(cur, place) == StartPos(cur, place) then 1 else 0
    {
      hide Rooted;
      hide Zip;
      hide Before;
      hide Plug;
      hide StoreOk;
      ShownPlace(View(), cur, place);
      m := 0;
      var ents := pages[cur.find.value].ents;
      var key := if ents == [] then left else ents[cur.idx].key;
      if cur.haskey {
        if cur.key == key {
          cur, m := cur.(nmatches := cur.nmatches + 1), 1;
        } else {
          cur := cur.(haskey := false);
        }
      }
      if cur.find == cur.startPage && cur.idx == cur.startIndex {
        cur := cur.(nloops := cur.nloops + 1);
      }
      cur := cur.(matched := m);
    }

    /** ed_bpt_next: to the next entry; onto a leaf without entries, to its first slot, which holds the key `left`. */
    method Next(left: nat) returns (rc: Rc, m: nat)
      requires Valid()
      modifies `path, `cur, `place
      ensures Valid() && place.tree == old(place.tree)
      ensures !failed ==> rc == if old(cur.hasfind) then Ok else KeyMatch
      ensures !failed && (!old(cur.hasfind) || place.tree.None?) ==> cur == old(cur) && place == old(place) && m == 0
      ensures !failed && old(cur.hasfind) && place.tree.Some? ==>
                && cur.hasfind && cur.hasentry && (Stale(cur, place) <==> !old(CanNext(cur, place)))
                && (var n := Pos(old(cur), old(place)) + if old(OnEntry(View(), cur, place)) then 1 else 0;
                    && (Pos(cur, place) == n || (n == |Contents()| && Pos(cur, place) == 0))
                    && (!Stale(cur, place) ==> OnEntry(View(), cur, place) && Pos(cur, place) == if n < |Contents()| then n else 0))
                && (!Stale(cur, place) ==> Pos(cur, place) < |Contents()|)
                && m == (if old(cur.haskey) && (if Stale(cur, place) then left else Contents()[Pos(cur, place)].key) == old(cur.key) then 1 else 0)
                && (old(AtWindow(cur, place)) ==> AtWindow(cur, place))
                && cur.matched == m && cur.haskey == (m == 1) && cur.key == old(cur.key)
                && cur.nmatches >= m
                && SteppedRight(old(cur), old(place), cur.(nmatches := cur.nmatches - m), place)
                && Round(old(cur), old(place), cur, place)
    {
      hide Standing;
      hide Pos;
      hide StartOf;
      hide PageAt;
      hide AtWindow;
      hide CanNext;
      if failed {
        FailedAnyhow(View(), cur, place);
        cur, rc, m := *, *, *;
        return;
      }
      if !cur.hasfind {
        return KeyMatch, 0;
      }
      WalkKind(View(), cur, place);
      if cur.find == None {
        return Ok, 0;
      }
      StepRight();
      ghost var c := cur;
      m := Visit(left);
      KeptWindow(c, cur, place);
      rc := Ok;
    }

    /** ed_bpt_prev, unless it goes to a leaf without entries. */
    method Prev() returns (rc: Rc, m: nat)
      requires Valid() && (!failed ==> CanPrev(cur, place))
      modifies `path, `cur, `place
      ensures Valid() && place.tree == old(place.tree)
      ensures !failed ==> rc == if old(cur.hasfind) then Ok else KeyMatch
      ensures !failed && (!old(cur.hasfind) || place.tree.None?) ==> cur == old(cur) && place == old(place) && m == 0
      ensures !failed && old(cur.hasfind) && place.tree.Some? ==>
                && OnEntry(View(), cur, place)
                && Pos(cur, place) == (if Pos(old(cur), old(place)) > 0 then Pos(old(cur), old(place)) else |Contents()|) - 1
                && Pos(cur, place) < |Contents()|
                && m == (if old(cur.haskey) && Contents()[Pos(cur, place)].key == old(cur.key) then 1 else 0)
                && cur.matched == m && cur.haskey == (m == 1) && cur.key == old(cur.key)
                && cur.nmatches >= m
                && SteppedLeft(old(cur), old(place), cur.(nmatches := cur.nmatches - m), place)
                && Round(old(cur), old(place), cur, place)
    {
      hide Standing;
      hide Pos;
      hide StartOf;
      hide PageAt;
      if failed {
        FailedAnyhow(View(), cur, place);
        cur, rc, m := *, *, *;
        return;
      }
      if !cur.hasfind {
        return KeyMatch, 0;
      }
      WalkKind(View(), cur, place);
      if cur.find == None {
        return Ok, 0;
      }
      StepLeft();
      m := Visit(0);
      rc := Ok;
    }

    // ---- whole walks

    /** `m` steps of ed_bpt_next from where a walk began: the entries in cyclic order, one turn counted
        for every time round. */
    method NextMany(m: nat) returns (seen: seq<Entry>)
      requires OnEntry(View(), cur, place) && NoEmptyLeaf(place.tree.value) && Started(cur, place) && StartPos(cur, place) == Pos(cur, place) && cur.nloops == 0
      modifies `path, `cur, `place
      ensures OnEntry(View(), cur, place) && place.tree == old(place.tree) && |Contents()| > 0
      ensures var p, n := old(Pos(cur, place)), |Contents()|;
              && |seen| == m && (forall k | 0 <= k < m :: seen[k] == Contents()[(p + 1 + k) % n])
              && Pos(cur, place) == (p + m) % n && cur.nloops == m / n
    {
      hide Standing;
      hide Pos;
      hide Started;
      hide StartPos;
      hide NoEmptyLeaf;
      hide Entries;
      ghost var p, n := Pos(cur, place), |Contents()|;
      VisitPlace(View(), cur, place);
      seen := [];
      TurnStart(p, n);
      for i := 0 to m
        invariant OnEntry(View(), cur, place) && place.tree == old(place.tree) && Started(cur, place) && StartPos(cur, place) == p
        invariant |seen| == i && forall k | 0 <= k < i :: seen[k] == Contents()[(p + 1 + k) % n]
        invariant Pos(cur, place) == (p + i) % n && cur.nloops == i / n
      {
        StepsHave(View(), cur, place);
        var _, _ := Next(0);
        TurnStep(p, i, n);
        VisitPlace(View(), cur, place);
        seen := seen + [pages[cur.find.value].ents[cur.idx]];
      }
    }

    /** The same with ed_bpt_prev, in the opposite order. */
    method PrevMany(m: nat) returns (seen: seq<Entry>)
      requires OnEntry(View(), cur, place) && NoEmptyLeaf(place.tree.value) && Started(cur, place) && StartPos(cur, place) == Pos(cur, place) && cur.nloops == 0
      modifies `path, `cur, `place
      ensures OnEntry(View(), cur, place) && place.tree == old(place.tree) && |Contents()| > 0
      ensures var p, n := old(Pos(cur, place)), |Contents()|;
              && |seen| == m && (forall k | 0 <= k < m :: seen[k] == Contents()[(p - 1 - k) % n])
              && Pos(cur, place) == (p - m) % n && cur.nloops == m / n
    {
      hide Standing;
      hide Pos;
      hide Started;
      hide StartPos;
      hide NoEmptyLeaf;
      hide Entries;
      ghost var p, n := Pos(cur, place), |Contents()|;
      VisitPlace(View(), cur, place);
      seen := [];
      TurnStart(p, n);
      for i := 0 to m
        invariant OnEntry(View(), cur, place) && place.tree == old(place.tree) && Started(cur, place) && StartPos(cur, place) == p
        invariant |seen| == i && forall k | 0 <= k < i :: seen[k] == Contents()[(p - 1 - k) % n]
        invariant Pos(cur, place) == (p - i) % n && cur.nloops == i / n
      {
        StepsHave(View(), cur, place);
        var _, _ := Prev();
        TurnBack(p, i, n);
        VisitPlace(View(), cur, place);
        seen := seen + [pages[cur.find.value].ents[cur.idx]];
      }
    }
  }

  lemma {:induction false} UnfoldSetNode(s: Txn, level: nat, n: nat, idx: nat)
    requires StoreOk(s) && level <= |s.path| && Safe(s, level)
    requires level < |s.path| ==> BranchAt(s.pages, s.path[level].no, idx)
    ensures level == |s.path| ==> BptStore.SetNode(s, level, n, idx) == (s.(root := Some(n)), true)
    ensures level < |s.path| && !CanOwn(s, s.path[level].no) ==> BptStore.SetNode(s, level, n, idx) == (s.(failed := true), false)
    ensures level < |s.path| && CanOwn(s, s.path[level].no) ==>
              var t := Attach(s, level, n, idx);
              && level < |t.path| == |s.path| && StoreOk(t) && Safe(t, level + 1)
              && (level + 1 < |t.path| ==> BranchAt(t.pages, t.path[level + 1].no, UpIndex(t, level)))
              && BptStore.SetNode(s, level, n, idx) == BptStore.SetNode(t, level + 1, t.path[level].no, UpIndex(t, level))
  {
    if level < |s.path| && CanOwn(s, s.path[level].no) {
      AttachKept(s, level, n, idx);
    }
  }

  lemma {:induction false} UnfoldInsert(s: Txn, level: nat, l: nat, r: nat, key: nat)
    requires StoreOk(s) && level <= |s.path| && Safe(s, level) && Agrees(s, level, key)
    ensures var res := BptInsert.InsertIntoParent(s, level, l, r, key);
            if level == |s.path| then
              if s.supply == [] then res == (s.(failed := true), false)
              else PairReady(RootAdded(s), level) && res == (BptInsert.SetPair(RootAdded(s), level, l, r, key), true)
            else
              && BranchAt(s.pages, s.path[level].no, s.path[level].pindex)
              && (!FullAt(s, level) ==>
                    if !CanOwn(s, s.path[level].no) then res == (s.(failed := true), false)
                    else PairReady(Widen(s, level), level) && res == (BptInsert.SetPair(Widen(s, level), level, l, r, key), true))
              && (FullAt(s, level) ==> s.pages[s.path[level].no].keys != [])
    ensures level < |s.path| && FullAt(s, level) && !CanCut(s, level) ==>
              BptInsert.InsertIntoParent(s, level, l, r, key)
              == ((if s.supply == [] then s else CutRight(s, level)).(failed := true), false)
    ensures level < |s.path| && FullAt(s, level) && CanCut(s, level) ==>
              var h, pivot := CutBranch(s, level, key), Pivot(s.pages[s.path[level].no].keys);
              && StoreOk(h.s) && h.s.path == s.path && Safe(h.s, level + 1) && Agrees(h.s, level + 1, pivot)
              && var (t, ok) := BptInsert.InsertIntoParent(h.s, level + 1, h.left, h.right, pivot);
              && (!ok ==> BptInsert.InsertIntoParent(s, level, l, r, key) == (t, false))
              && (ok ==>
                    && level + 1 < |t.path| && PairReady(Rejoin(t, level, h), level)
                    && BptInsert.InsertIntoParent(s, level, l, r, key) == (BptInsert.SetPair(Rejoin(t, level, h), level, l, r, key), true))
  {
    hide BptInsert.SetPair;
    hide CutBranch;
    if level == |s.path| {
      if s.supply != [] {
        RootTook(s, l, r, key);
      }
    } else if !FullAt(s, level) {
      if CanOwn(s, s.path[level].no) {
        WidenTook(s, level, l, r, key);
      }
    } else if CanCut(s, level) {
      var h, pivot := CutBranch(s, level, key), Pivot(s.pages[s.path[level].no].keys);
      SplitEntry(s, level, key);
      SplitTook(s, level, l, r, key, h, BptInsert.InsertIntoParent(h.s, level + 1, h.left, h.right, pivot));
    }
  }

  lemma {:induction false} HalvedReady(s: Txn, leaf: nat, mid: nat)
    requires StoreOk(s) && Safe(s, 0) && LeafAt(s, leaf) && CanHalve(s, leaf) && mid <= |s.pages[leaf].ents|
    ensures var (t, left) := BptPut.HalveLeaf(s, leaf, mid);
            && StoreOk(t) && Safe(t, 0) && LeafAt(t, left) && LeafAt(t, s.supply[0])
            && t.pages[left] == Leaf(t.xid, s.pages[leaf].ents[..mid]) && t.pages[s.supply[0]] == Leaf(t.xid, s.pages[leaf].ents[mid..])
  {
    hide BptPut.HalveLeaf;
    HalveLeafKept(s, leaf, mid);
    HalveLeafRight(s, leaf, mid);
  }

  lemma {:induction false} EmptyPlace(s: Txn, c: Cursor, p: Place)
    requires Standing(s, c, p) && !s.failed && c.hasfind && c.find == None
    ensures p.tree == None && StoreOk(s) && s.path == [] && Rooted(s, None) && Entries(p.tree) == []
  {
  }

  lemma {:induction false} FirstFailed(s: Txn, e: Entry)
    requires StoreOk(s) && s.path == []
    ensures !BptPut.PutFirst(s, e).ok ==> BptPut.PutFirst(s, e).s.failed
    ensures NewEntries([], 0, e, false) == [e]
  {
  }

  lemma {:induction false} LeafPlace(s: Txn, c: Cursor, p: Place)
    requires Standing(s, c, p) && !s.failed && c.hasfind && c.find != None
    ensures p.tree == Some(Plug(p.fs, p.leaf)) && Zip(s, p.fs, p.leaf) && p.leaf.TLeaf? && c.idx <= |p.leaf.ents|
    ensures c.find == Some(p.leaf.no) && StoreOk(s) && Safe(s, 0) && LeafAt(s, p.leaf.no) && s.pages[p.leaf.no].ents == p.leaf.ents
    ensures Pos(c, p) == |Before(p.fs)| + c.idx && |p.leaf.ents| <= s.o.leaf && s.o.leaf >= 2 && SortedEntries(p.leaf.ents)
    ensures Entries(p.tree) == Flatten(Plug(p.fs, p.leaf))
  {
    ZipPage(s, p.fs, p.leaf);
    ZipFacts(s, p.fs, p.leaf);
  }

  lemma {:induction false} LevelsOf(s: Txn, c: Cursor, p: Place)
    requires Standing(s, c, p) && !s.failed && c.hasfind
    ensures Levels(p.tree) == |s.path|
  {
    if p.tree.Some? {
      ZipRooted(s, p.fs, p.leaf);
    }
  }

  /** What edits cost at most. */
  lemma {:induction false} CostBound(s: Txn, c: Cursor, p: Place, replacing: bool)
    requires Standing(s, c, p) && !s.failed && c.hasfind
    ensures SetCost(p, s.o, s.xid, replacing) <= 2 * Levels(p.tree) + 3 && DelCost(p, s.xid) <= Levels(p.tree) + 1
  {
    if p.tree.Some? {
      ZipRooted(s, p.fs, p.leaf);
      OldFramesBound(p.fs, s.xid, s.o);
    }
  }

  lemma {:induction false} RoomCost(s: Txn, p: Place, replacing: bool)
    requires p.tree.Some? && Zip(s, p.fs, p.leaf) && p.leaf.TLeaf? && !Full(p, s.o, replacing)
    ensures Due(s, p.leaf.no) + Dues(s, 0) == SetCost(p, s.o, s.xid, replacing)
  {
    DuesFrames(s, 0, p.fs, p.leaf.no);
  }

  lemma {:induction false} FullCost(s: Txn, p: Place)
    requires p.tree.Some? && Zip(s, p.fs, p.leaf) && p.leaf.TLeaf? && |p.leaf.ents| == s.o.leaf
    ensures Safe(s, 0) && 1 + Due(s, p.leaf.no) + Price(s, 0) == SetCost(p, s.o, s.xid, false)
  {
    PriceFrames(s, 0, p.fs, p.leaf.no);
  }

  lemma {:induction false} TakeCost(s: Txn, p: Place)
    requires p.tree.Some? && Zip(s, p.fs, p.leaf) && p.leaf.TLeaf? && LeafAt(s, p.leaf.no)
    ensures (if s.pages[p.leaf.no].xid == s.xid then 0 else 1 + Dues(s, 0)) == DelCost(p, s.xid)
  {
    DuesFrames(s, 0, p.fs, p.leaf.no);
  }

  lemma {:induction false} DelLength(s: Txn, leaf: nat, idx: nat)
    requires StoreOk(s) && Safe(s, 0) && LeafAt(s, leaf) && idx < |s.pages[leaf].ents|
    ensures |DelAt(s, leaf, idx).s.path| == |s.path|
  {
    if s.pages[leaf].xid != s.xid && s.supply != [] {
      OwnedSafe(s, leaf);
      var (s1, no) := Owned(s, leaf);
      SetNodePaid(s1, 0, no, LeafIndex(s1));
    }
  }

  /** After a search a leaf that is full and cannot be cut is one of a single key. */
  lemma {:induction false} FullOfOne(s: Txn, c: Cursor, p: Place, replacing: bool)
    requires Standing(s, c, p) && !s.failed && c.hasfind && AtSearch(c, p)
    ensures Full(p, s.o, replacing) && NoCut(c, p) <==>
            p.tree.Some? && !replacing && p.leaf.TLeaf? && |p.leaf.ents| == s.o.leaf && forall x | x in p.leaf.ents :: x.key == p.leaf.ents[0].key
  {
    hide BptLeaf.SplitPoint;
    hide Zip;
    hide Rooted;
    hide Plug;
    if p.tree.Some? {
      LeafPlace(s, c, p);
      SearchCut(p.leaf.ents, c.key, c.idx, c.nmatches);
      OneKeyOnly(p.leaf.ents);
    }
  }

  /** A full leaf of one key crowds the list of all entries. */
  lemma {:induction false} Crowded(s: Txn, c: Cursor, p: Place)
    requires Standing(s, c, p) && !s.failed && c.hasfind
    ensures p.tree.Some? && p.leaf.TLeaf? && |p.leaf.ents| == s.o.leaf && (forall x | x in p.leaf.ents :: x.key == p.leaf.ents[0].key) ==>
              !Uncrowded(Entries(p.tree), s.o.leaf)
  {
    hide Zip;
    hide Rooted;
    hide Plug;
    hide Before;
    hide Uncrowded;
    if p.tree.Some? && p.leaf.TLeaf? && |p.leaf.ents| == s.o.leaf && forall x | x in p.leaf.ents :: x.key == p.leaf.ents[0].key {
      LeafPlace(s, c, p);
      ZipRooted(s, p.fs, p.leaf);
      CrowdedRun(Before(p.fs), p.leaf.ents, After(p.fs));
    }
  }

  lemma {:induction false} CrowdedRun(a: seq<Entry>, ents: seq<Entry>, b: seq<Entry>)
    requires ents != [] && forall x | x in ents :: x.key == ents[0].key
    ensures !Uncrowded(a + ents + b, |ents|)
  {
    var all, i, j := a + ents + b, |a|, |a| + |ents| - 1;
    assert all[i] == ents[0] && all[j] == ents[|ents| - 1] && ents[|ents| - 1] in ents;
  }

  lemma {:induction false} Increase(i: nat, n: nat, k: nat)
    requires i < n
    ensures (i + 1) * k == i * k + k <= n * k
  {
    assert n * k == (i + 1) * k + (n - i - 1) * k;
  }

  lemma {:induction false} BoundWithin(all: seq<Entry>, k: nat, pos: nat)
    requires LowerBound(all, k, pos)
    ensures pos <= |all|
  {
  }

  lemma {:induction false} OneKeyOnly(ents: seq<Entry>)
    ensures ents != [] ==> (AllEqual(ents) <==> forall x | x in ents :: x.key == ents[0].key)
  {
    if ents != [] && forall x | x in ents :: x.key == ents[0].key {
      assert forall i | 0 <= i < |ents| :: ents[i] in ents;
    }
  }

  lemma {:induction false} RoomFailed(s: Txn, leaf: nat, idx: nat, e: Entry, replace: bool)
    requires StoreOk(s) && Safe(s, 0) && LeafAt(s, leaf)
    requires idx <= |s.pages[leaf].ents| && (replace ==> idx < |s.pages[leaf].ents|)
    ensures !BptPut.PutRoom(s, leaf, idx, e, replace).ok ==> BptPut.PutRoom(s, leaf, idx, e, replace).s.failed
  {
  }

  /** A full leaf and a cut before `mid` meet everything a split asks for. */
  lemma {:induction false} FullReady(s: Txn, fs: seq<Frame>, leaf: Tree, idx: nat, key: nat, mid: nat, e: Entry)
    requires Zip(s, fs, leaf) && leaf.TLeaf? && |leaf.ents| == s.o.leaf
    requires CutAt(leaf.ents, key, idx, mid)
    requires Fits(leaf.ents, idx, e, PathLow(fs), PathHigh(fs))
    ensures Splittable(s, fs, leaf, idx, key, mid, e) && 0 < mid < |leaf.ents| && idx <= |leaf.ents|
    ensures StoreOk(s) && LeafAt(s, leaf.no) && s.pages[leaf.no].ents == leaf.ents
    ensures CanHalve(s, leaf.no) ==>
              Safe(BptPut.HalveLeaf(s, leaf.no, mid).0, 0) && BptPut.HalveLeaf(s, leaf.no, mid).0.o.branch >= 4 &&
              Agrees(BptPut.HalveLeaf(s, leaf.no, mid).0, 0, SplitKey(leaf.ents, key, idx, mid))
  {
    hide CutAt;
    hide BptPut.HalveLeaf;
    hide Zip;
    hide Safe;
    ZipPage(s, fs, leaf);
    CutBounds(s, fs, leaf, idx, key, mid, e);
    if CanHalve(s, leaf.no) {
      HalvesInsertable(s, fs, leaf, idx, key, mid, e);
      HalvedReady(s, leaf.no, mid);
    }
  }

  lemma {:induction false} FullFailed(s: Txn, leaf: nat, idx: nat, key: nat, mid: nat, e: Entry)
    requires StoreOk(s) && Safe(s, 0) && LeafAt(s, leaf)
    requires idx <= |s.pages[leaf].ents| && 0 < mid < |s.pages[leaf].ents|
    requires CanHalve(s, leaf) ==>
               Safe(BptPut.HalveLeaf(s, leaf, mid).0, 0) && BptPut.HalveLeaf(s, leaf, mid).0.o.branch >= 4 &&
               Agrees(BptPut.HalveLeaf(s, leaf, mid).0, 0, SplitKey(s.pages[leaf].ents, key, idx, mid))
    ensures !BptPut.PutSplit(s, leaf, idx, key, mid, e).ok ==> BptPut.PutSplit(s, leaf, idx, key, mid, e).s.failed
  {
    hide BptPut.HalveLeaf;
    hide BptInsert.InsertIntoParent;
    hide BptSet.SetLeaf;
    hide StoreOk;
    hide Safe;
    hide Agrees;
  }

  lemma {:induction false} CopyOnWriteSelf(s: Txn)
    ensures CopyOnWrite(s.pages, s.pages, s.xid)
  {
  }

  lemma {:induction false} PlaceKind(s: Txn, c: Cursor, p: Place)
    requires Standing(s, c, p) && !s.failed && c.hasfind
    ensures StoreOk(s)
    ensures c.find == None ==> p.tree == None && Pos(c, p) == 0
    ensures c.find != None ==> p.tree.Some? && p.leaf.TLeaf? && LeafAt(s, c.find.value) && s.pages[c.find.value].ents == p.leaf.ents
  {
    if c.find != None {
      LeafPlace(s, c, p);
    }
  }

  lemma {:induction false} CarefulFacts(s: Txn, t: Txn)
    requires Careful(s, t)
    ensures StoreOk(t) && CopyOnWrite(s.pages, t.pages, s.xid) && NoneAdded(s.supply, t.supply) && (t.failed ==> s.failed || t.supply == [])
  {
  }

  lemma {:induction false} FailedStanding(s: Txn, c: Cursor, p: Place)
    requires StoreOk(s.(failed := false)) && s.failed
    ensures Standing(s, c, p)
  {
  }

  lemma {:induction false} DoneStanding(s: Txn, p: Place, at: nat, t: Txn, c: Cursor, q: Place, e: Entry, replacing: bool)
    requires SetDone(s, p, at, t, c.find, c.idx, q, e, replacing)
    ensures Standing(t, c, q) && Pos(c, q) == at
  {
  }

  lemma {:induction false} EntryPlace(s: Txn, c: Cursor, p: Place)
    requires Standing(s, c, p) && !s.failed && c.hasfind && c.hasentry && !Stale(c, p)
    ensures c.find == Some(p.leaf.no) && p.tree == Some(Plug(p.fs, p.leaf)) && Zip(s, p.fs, p.leaf) && p.leaf.TLeaf?
    ensures c.idx < |p.leaf.ents| && Pos(c, p) == |Before(p.fs)| + c.idx
    ensures StoreOk(s) && Safe(s, 0) && LeafAt(s, p.leaf.no) && s.pages[p.leaf.no].ents == p.leaf.ents
  {
    LeafPlace(s, c, p);
  }

  /** A leaf with one entry taken out, at the end of a path with the same sides and range. */
  ghost predicate Removed(s: Txn, c: Cursor, p: Place, t: Txn, gs: seq<Frame>, leaf: Tree) {
    && Zip(s, p.fs, p.leaf) && p.leaf.TLeaf? && p.tree == Some(Plug(p.fs, p.leaf)) && c.idx < |p.leaf.ents|
    && Zip(t, gs, leaf) && leaf == TLeaf(leaf.no, s.xid, RemoveAt(p.leaf.ents, c.idx))
    && SameSides(p.fs, gs) && PathLow(gs) == PathLow(p.fs) && PathHigh(gs) == PathHigh(p.fs)
    && PathBag(gs) + multiset{leaf.no} + Loose(t) == PathBag(p.fs) + multiset{p.leaf.no} + Loose(s)
  }

  lemma {:induction false} RemovedPlace(s: Txn, c: Cursor, p: Place, t: Txn, gs: seq<Frame>, leaf: Tree)
    requires Removed(s, c, p, t, gs, leaf)
    ensures var tree := Some(Plug(gs, leaf));
            && Rooted(t, tree) && Safe(t, 0) && leaf.TLeaf? && LeafAt(t, leaf.no) && t.pages[leaf.no].ents == leaf.ents
            && c.idx <= |leaf.ents| && 0 <= FindKmax(t, 0)
            && |Before(p.fs)| + c.idx < |Entries(p.tree)| && Entries(tree) == RemoveAt(Entries(p.tree), |Before(p.fs)| + c.idx)
            && Pages(t, tree) == Pages(s, p.tree) && Size(tree) == Size(p.tree) && |Before(gs)| == |Before(p.fs)|
  {
    hide Zip;
    hide Rooted;
    hide Plug;
    hide Before;
    hide After;
    hide PathBag;
    hide PathHigh;
    hide PathLow;
    hide FindKmax;
    hide Safe;
    ZipPage(t, gs, leaf);
    ZipRooted(s, p.fs, p.leaf);
    ZipRooted(t, gs, leaf);
    ZipKmax(t, gs, leaf);
    EditWithin(Before(p.fs), p.leaf.ents, After(p.fs), c.idx, Entry(0, 0));
  }

  lemma {:induction false} ZipKmax(s: Txn, fs: seq<Frame>, leaf: Tree)
    requires Zip(s, fs, leaf)
    ensures Safe(s, 0) && FindKmax(s, 0) == PathHigh(fs) && 0 <= PathLow(fs) <= PathHigh(fs)
  {
    hide SoundPath;
    FindKmaxPath(s, 0, fs, leaf.no);
    PathRange(fs, 0, s.o);
  }

  lemma {:induction false} RemovedStanding(s: Txn, c: Cursor, p: Place, t: Txn, gs: seq<Frame>, leaf: Tree, c': Cursor)
    requires Removed(s, c, p, t, gs, leaf) && Safe(t, 0)
    requires c' == c.(find := Some(leaf.no), kmax := c'.kmax, nmatches := 0, hasentry := false)
    requires c'.kmax == if c.idx == |leaf.ents| then FindKmax(t, 0) else leaf.ents[c.idx].key
    ensures var q := Place(Some(Plug(gs, leaf)), gs, leaf);
            && Standing(t, c', q) && Pos(c', q) == |Before(gs)| + c.idx
            && |leaf.ents| < s.o.leaf && c'.kmax == WindowHigh(leaf.ents, c.idx, PathHigh(gs))
            && PathLow(gs) == PathLow(p.fs) && PathHigh(gs) == PathHigh(p.fs)
            && (AtWindow(c, p) ==> AtWindow(c', q))
  {
    hide Zip;
    hide Rooted;
    hide Plug;
    hide Before;
    hide PathBag;
    hide PathHigh;
    hide PathLow;
    hide FindKmax;
    hide Safe;
    ZipPage(t, gs, leaf);
    ZipRooted(t, gs, leaf);
    ZipKmax(t, gs, leaf);
    ZipFacts(s, p.fs, p.leaf);
  }

  lemma {:induction false} DelRemoved(s: Txn, c: Cursor, p: Place) returns (gs: seq<Frame>, leaf: Tree)
    requires Zip(s, p.fs, p.leaf) && p.leaf.TLeaf? && p.tree == Some(Plug(p.fs, p.leaf)) && c.idx < |p.leaf.ents|
    requires StoreOk(s) && Safe(s, 0) && LeafAt(s, p.leaf.no) && s.pages[p.leaf.no].ents == p.leaf.ents
    requires !DelAt(s, p.leaf.no, c.idx).s.failed
    ensures var d := DelAt(s, p.leaf.no, c.idx); Removed(s, c, p, d.s, gs, leaf) && d.find == leaf.no && d.idx == c.idx
  {
    hide Zip;
    hide DelAt;
    hide Plug;
    hide PathBag;
    gs, leaf := DelZip(s, p.fs, p.leaf, c.idx);
  }

  lemma {:induction false} DelOk(s: Txn, leaf: nat, idx: nat)
    requires StoreOk(s) && Safe(s, 0) && LeafAt(s, leaf) && idx < |s.pages[leaf].ents| && !s.failed
    ensures DelAt(s, leaf, idx).ok <==> !DelAt(s, leaf, idx).s.failed
  {
    hide BptStore.SetNode;
    if s.pages[leaf].xid != s.xid && s.supply != [] {
      OwnedSafe(s, leaf);
      var (s1, no) := Owned(s, leaf);
      ClimbFailed(s1, 0, no, LeafIndex(s1));
    }
  }

  /** A climb fails the transaction exactly when it does not reach the root. */
  lemma {:induction false} ClimbFailed(s: Txn, level: nat, n: nat, idx: nat)
    requires StoreOk(s) && level <= |s.path| && Safe(s, level) && !s.failed
    requires level < |s.path| ==> BranchAt(s.pages, s.path[level].no, idx)
    ensures BptStore.SetNode(s, level, n, idx).1 <==> !BptStore.SetNode(s, level, n, idx).0.failed
    decreases |s.path| - level
  {
    if level < |s.path| && CanOwn(s, s.path[level].no) {
      AttachKept(s, level, n, idx);
      var t := Attach(s, level, n, idx);
      ClimbFailed(t, level + 1, t.path[level].no, UpIndex(t, level));
    }
  }

  lemma {:induction false} DelDoneStanding(s: Txn, c: Cursor, p: Place, t: Txn, d: Cursor, q: Place)
    requires DelDone(s, c, p, t, d, q)
    ensures Standing(t, d, q)
  {
  }

  lemma {:induction false} PathFree(s: Txn, t: Txn, tree: Option<Tree>)
    requires t == s.(path := t.path)
    ensures Pages(t, tree) == Pages(s, tree)
  {
  }

  /** What a search leaves is what setting the searched key relies on. */
  lemma {:induction false} SearchSettable(s: Txn, c: Cursor, p: Place, e: Entry, replacing: bool)
    requires Standing(s, c, p) && !s.failed && c.hasfind && AtSearch(c, p) && AtWindow(c, p)
    requires e.key == c.key && c.kmin <= e.key <= c.kmax && (replacing ==> c.hasentry && !Stale(c, p))
    ensures Settable(c, p, s.o, e, replacing)
  {
    hide Zip;
    hide Rooted;
    hide Plug;
    hide BptLeaf.SplitPoint;
    if p.tree.Some? {
      LeafPlace(s, c, p);
      ZipFacts(s, p.fs, p.leaf);
      WindowExact(p.leaf.ents, c.idx, e, PathLow(p.fs), PathHigh(p.fs));
      SearchCut(p.leaf.ents, c.key, c.idx, c.nmatches);
    }
  }

  /** Where a search left the cursor, split_leaf's demands are met. */
  lemma {:induction false} SearchCut(ents: seq<Entry>, key: nat, idx: nat, nm: nat)
    requires AtKey(ents, key, idx, nm) && SortedEntries(ents)
    ensures idx <= |ents| && nm <= idx + 1 && (nm > 0 ==> idx < |ents|)
    ensures |ents| >= 2 ==> var mid := BptLeaf.SplitPoint(ents, key, idx, nm); (mid.None? <==> AllEqual(ents)) && (mid.Some? ==> CutAt(ents, key, idx, mid.value))
  {
    hide BptLeaf.SplitPoint;
    hide SortedEntries;
    hide AllEqual;
    if |ents| >= 2 {
      SplitPointCorrect(ents, key, idx, nm);
      var mid := BptLeaf.SplitPoint(ents, key, idx, nm);
      if mid.Some? {
        KeyBetween(ents, key, idx, nm, mid.value);
      }
    }
  }

  lemma {:induction false} FullPredicted(p: Place, o: Orders, replacing: bool)
    ensures Full(p, o, replacing) ==> Predicted(p, o) > 0 && !replacing
  {
  }

  lemma {:induction false} SetDoneFacts(s: Txn, p: Place, at: nat, t: Txn, c: Cursor, q: Place, e: Entry, replacing: bool)
    requires SetDone(s, p, at, t, c.find, c.idx, q, e, replacing)
    ensures at <= |Entries(p.tree)| && (replacing ==> at < |Entries(p.tree)|)
    ensures Entries(q.tree) == NewEntries(Entries(p.tree), at, e, replacing) && Pos(c, q) == at
    ensures at < |Entries(q.tree)| && Entries(q.tree)[at] == e
    ensures Pages(t, q.tree) == Pages(s, p.tree)
    ensures Size(q.tree) == Size(p.tree) + if replacing then 0 else Predicted(p, s.o)
  {
    hide Rooted;
    hide On;
    hide Plug;
    hide Before;
  }

  lemma {:induction false} FromRoot(s: Txn, tree: Tree)
    requires Rooted(s, Some(tree))
    ensures s.root == Some(tree.no) && Descended(s.(path := []), tree, [], tree, Height(tree))
    ensures PathLow([]) == 0 && PathHigh([]) == KEY_MAX && Before([]) == []
  {
    DescendStart(s, tree);
    DescendRoot(s, tree);
  }

  /** A cursor moved to entry `i` of a leaf stands in the tree, and its page and index say where. */
  lemma {:induction false} ArriveAt(s: Txn, path: seq<Step>, tree: Tree, fs: seq<Frame>, leaf: Tree, i: nat)
    requires Rooted(s, Some(tree)) && Zip(s.(path := path), fs, leaf) && Plug(fs, leaf) == tree && leaf.TLeaf? && i < |leaf.ents|
    ensures StoreOk(s.(path := path)) && Rooted(s.(path := path), Some(tree))
    ensures Flatten(tree) == Before(fs) + leaf.ents + After(fs)
    ensures StartOf(tree, leaf.no) == |Before(fs)| && PageAt(tree, |Before(fs)| + i) == leaf.no
    ensures leaf.no in s.pages && s.pages[leaf.no] == Leaf(leaf.xid, leaf.ents)
  {
    hide Zip;
    hide Rooted;
    hide Plug;
    hide Before;
    RootedPath(s, Some(tree), path);
    ZipFacts(s.(path := path), fs, leaf);
    ZipRooted(s.(path := path), fs, leaf);
    ZipStart(s.(path := path), fs, leaf, i);
  }

  /** A cursor moved to a leaf stands in the tree. */
  lemma {:induction false} ArriveIn(s: Txn, path: seq<Step>, tree: Tree, fs: seq<Frame>, leaf: Tree)
    requires Rooted(s, Some(tree)) && Zip(s.(path := path), fs, leaf) && Plug(fs, leaf) == tree && leaf.TLeaf?
    ensures StoreOk(s.(path := path)) && Rooted(s.(path := path), Some(tree))
    ensures Flatten(tree) == Before(fs) + leaf.ents + After(fs)
    ensures leaf.no in s.pages && s.pages[leaf.no] == Leaf(leaf.xid, leaf.ents)
  {
    hide Zip;
    hide Rooted;
    hide Plug;
    hide Before;
    RootedPath(s, Some(tree), path);
    ZipFacts(s.(path := path), fs, leaf);
    ZipRooted(s.(path := path), fs, leaf);
  }

  lemma {:induction false} RootKind(s: Txn, tree: Option<Tree>)
    requires StoreOk(s) && (!s.failed ==> Rooted(s, tree))
    ensures !s.failed ==> (s.root == None <==> tree.None?)
  {
  }

  lemma {:induction false} FailedAnyhow(s: Txn, c: Cursor, p: Place)
    requires Standing(s, c, p) && s.failed
    ensures forall d, q :: Standing(s, d, q)
  {
  }

  lemma {:induction false} WalkPlace(s: Txn, c: Cursor, p: Place)
    requires Standing(s, c, p) && !s.failed && c.hasfind && p.tree.Some?
    ensures c.find == Some(p.leaf.no) && p.leaf.TLeaf? && LeafAt(s, p.leaf.no) && s.pages[p.leaf.no].ents == p.leaf.ents
    ensures Descended(s, p.tree.value, p.fs, p.leaf, 0) && s == s.(path := s.path) && Flatten(p.leaf) == p.leaf.ents
    ensures c.idx <= |p.leaf.ents| && Flatten(p.tree.value) == Before(p.fs) + p.leaf.ents + After(p.fs)
  {
    hide Rooted;
    hide Plug;
    hide Descended;
    hide Before;
    hide After;
    LeafPlace(s, c, p);
    ZipDescended(s, p.fs, p.leaf);
    ZipRooted(s, p.fs, p.leaf);
  }

  lemma {:induction false} WindowNat(s: Txn, fs: seq<Frame>, leaf: Tree)
    requires Zip(s, fs, leaf) && leaf.TLeaf?
    ensures 0 <= PathLow(fs) <= PathHigh(fs)
  {
    ZipKmax(s, fs, leaf);
  }

  lemma {:induction false} StepsHave(s: Txn, c: Cursor, p: Place)
    requires OnEntry(s, c, p) && NoEmptyLeaf(p.tree.value)
    ensures CanNext(c, p) && CanPrev(c, p)
  {
    hide NoEmptyLeaf;
    hide LeafAfter;
    hide LeafBefore;
    hide SoundPath;
    hide FirstLeaf;
    hide LastLeaf;
    hide Before;
    hide Plug;
    LeafPlace(s, c, p);
    EndsHave(p.tree.value, Height(p.tree.value), 0, KEY_MAX, s.o);
    SidesHave(p.fs, p.leaf, p.tree.value, 0, s.o);
  }

  lemma {:induction false} VisitPlace(s: Txn, c: Cursor, p: Place)
    requires OnEntry(s, c, p)
    ensures c.find == Some(p.leaf.no) && p.leaf.TLeaf? && LeafAt(s, p.leaf.no) && s.pages[p.leaf.no].ents == p.leaf.ents
    ensures c.idx < |p.leaf.ents| && Pos(c, p) < |Entries(p.tree)| && Entries(p.tree)[Pos(c, p)] == p.leaf.ents[c.idx]
    ensures Started(c, p) ==> (c.find == c.startPage && c.idx == c.startIndex <==> Pos(c, p) == StartPos(c, p))
  {
    hide StartOf;
    hide PageAt;
    hide Flatten;
    hide Bag;
    hide PathBag;
    hide Height;
    hide StoreOk;
    hide Safe;
    hide SortedEntries;
    hide Rooted;
    hide Plug;
    hide Before;
    hide After;
    hide Zip;
    LeafPlace(s, c, p);
    ZipRooted(s, p.fs, p.leaf);
    ZipStart(s, p.fs, p.leaf, c.idx);
  }

  /** What the cursor shows, entry or not. */
  lemma {:induction false} ShownPlace(s: Txn, c: Cursor, p: Place)
    requires Standing(s, c, p) && !s.failed && c.hasfind && c.hasentry
    ensures p.tree.Some? && c.find == Some(p.leaf.no) && p.leaf.TLeaf? && LeafAt(s, p.leaf.no) && s.pages[p.leaf.no].ents == p.leaf.ents
    ensures StoreOk(s) && (Stale(c, p) <==> p.leaf.ents == [])
    ensures !Stale(c, p) ==> c.idx < |p.leaf.ents| && Pos(c, p) < |Entries(p.tree)| && Entries(p.tree)[Pos(c, p)] == p.leaf.ents[c.idx]
    ensures Started(c, p) ==> (c.find == c.startPage && c.idx == c.startIndex <==> !Stale(c, p) && Pos(c, p) == StartPos(c, p))
  {
    hide StartOf;
    hide PageAt;
    hide Flatten;
    hide Bag;
    hide PathBag;
    hide Height;
    hide StoreOk;
    hide Safe;
    hide SortedEntries;
    hide Rooted;
    hide Plug;
    hide Before;
    hide After;
    hide Zip;
    LeafPlace(s, c, p);
    if !Stale(c, p) {
      VisitPlace(s, c, p);
    } else if Started(c, p) {
      StaleElsewhere(s, c, p);
    }
  }

  lemma {:induction false} StaleElsewhere(s: Txn, c: Cursor, p: Place)
    requires Standing(s, c, p) && !s.failed && c.hasfind && Stale(c, p) && Started(c, p)
    ensures c.find != c.startPage
  {
    hide Zip;
    hide PageAt;
    hide Plug;
    hide Rooted;
    LeafPlace(s, c, p);
    EmptyPage(s, p.fs, p.leaf, StartPos(c, p));
  }

  lemma {:induction false} StartedHere(s: Txn, c: Cursor, p: Place)
    requires OnEntry(s, c, p) && c.startPage == c.find && c.startIndex == c.idx
    ensures Started(c, p) && StartPos(c, p) == Pos(c, p)
  {
    hide StartOf;
    hide PageAt;
    hide Flatten;
    hide Bag;
    hide PathBag;
    hide Height;
    hide StoreOk;
    hide Safe;
    hide SortedEntries;
    hide Rooted;
    hide Plug;
    hide Before;
    hide After;
    hide Zip;
    LeafPlace(s, c, p);
    ZipRooted(s, p.fs, p.leaf);
    ZipStart(s, p.fs, p.leaf, c.idx);
  }

  lemma {:induction false} WalkKind(s: Txn, c: Cursor, p: Place)
    requires Standing(s, c, p) && !s.failed && c.hasfind
    ensures c.find == None <==> p.tree.None?
  {
  }

  lemma {:induction false} KeptWindow(c: Cursor, d: Cursor, p: Place)
    requires d == c.(haskey := d.haskey, nmatches := d.nmatches, matched := d.matched, nloops := d.nloops)
    ensures AtWindow(c, p) ==> AtWindow(d, p)
  {
  }

  lemma {:induction false} TurnStart(p: nat, n: nat)
    requires p < n
    ensures p % n == p && 0 / n == 0
  {
  }

  /** Moving by `i` comes back to `p` exactly when `i` is a whole number of turns. */
  lemma {:induction false} Returns(p: nat, i: int, n: nat)
    requires p < n
    ensures (p + i) % n == p <==> i % n == 0
  {
    var q, r := i / n, i % n;
    if p + r < n {
      Quotient(p + i, n, q, p + r);
    } else {
      assert n * (q + 1) == n * q + n;
      Quotient(p + i, n, q + 1, p + r - n);
    }
  }

  /** One step on: the position and the count of full turns. */
  lemma {:induction false} TurnStep(p: nat, i: nat, n: nat)
    requires p < n
    ensures (p + 1 + i) % n == (p + (i + 1)) % n == (if (p + i) % n + 1 < n then (p + i) % n + 1 else 0)
    ensures (i + 1) / n == i / n + if (p + (i + 1)) % n == p then 1 else 0
  {
    Increment(p + i, n);
    Increment(i, n);
    Returns(p, i + 1, n);
    assert p + 1 + i == p + (i + 1) == p + i + 1;
  }

  lemma {:induction false} Negated(i: int, n: nat)
    requires n > 0
    ensures (-i) % n == 0 <==> i % n == 0
  {
    var q, r := i / n, i % n;
    if r == 0 {
      assert n * (-q) == -(n * q);
      Quotient(-i, n, -q, 0);
    } else {
      assert n * (-q - 1) == -(n * q) - n;
      Quotient(-i, n, -q - 1, n - r);
    }
  }

  /** One step back. */
  lemma {:induction false} TurnBack(p: nat, i: nat, n: nat)
    requires p < n
    ensures (p - 1 - i) % n == (p - (i + 1)) % n == (if (p - i) % n > 0 then (p - i) % n else n) - 1
    ensures (i + 1) / n == i / n + if (p - (i + 1)) % n == p then 1 else 0
  {
    Increment(p - (i + 1), n);
    Increment(i, n);
    Returns(p, -(i + 1), n);
    Negated(i + 1, n);
    assert p - 1 - i == p - (i + 1) == p + -(i + 1);
    assert p - (i + 1) + 1 == p - i;
  }

  lemma {:induction false} DelDoneFacts(s: Txn, c: Cursor, p: Place, t: Txn, d: Cursor, q: Place)
    requires DelDone(s, c, p, t, d, q)
    ensures d.hasfind == c.hasfind && Pos(c, p) < |Entries(p.tree)| && Entries(q.tree) == RemoveAt(Entries(p.tree), Pos(c, p))
    ensures Pages(t, q.tree) == Pages(s, p.tree) && Size(q.tree) == Size(p.tree)
  {
  }

  lemma {:induction false} CopyOnWriteTrans(a: map<nat, Page>, b: map<nat, Page>, c: map<nat, Page>, xid: nat)
    requires CopyOnWrite(a, b, xid) && CopyOnWrite(b, c, xid)
    ensures CopyOnWrite(a, c, xid)
  {
  }
}
