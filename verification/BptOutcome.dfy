/** What each edit at a cursor leaves of the whole tree: its entries, its pages and the cursor. */
module BptOutcome {
  import opened BptTree
  import opened BptGrow
  import opened BptLeaf
  import opened BptStore
  import opened BptInsert
  import opened BptInsertFrames
  import opened BptInsertSplit
  import opened BptSet
  import opened BptPut
  import opened BptPutSplit
  import opened BptOrder
  import opened BptEdit
  import opened BptWhole

  /** The cursor stands in `leaf` at the end of `fs`, or the tree has no page. */
  ghost predicate On(s: Txn, find: Option<nat>, tree: Option<Tree>, fs: seq<Frame>, leaf: Tree) {
    match tree
    case None => find == None && s.path == [] && Rooted(s, None)
    case Some(t) => find == Some(leaf.no) && Zip(s, fs, leaf) && Plug(fs, leaf) == t
  }

  function Size(tree: Option<Tree>): nat {
    if tree.Some? then |Bag(tree.value)| else 0
  }

  /** One whole tree again, holding `all`, the cursor on `e` at place `at` of it; no page lost or met
      twice, and `grown` pages more in the tree. */
  ghost predicate Outcome(s: Txn, tree: Option<Tree>, p: Put, gs: seq<Frame>, leaf': Tree,
                          all: seq<Entry>, at: nat, e: Entry, grown: nat) {
    var tree' := Some(Plug(gs, leaf'));
    && Rooted(p.s, tree') && On(p.s, Some(p.find), tree', gs, leaf') && leaf'.TLeaf?
    && Entries(tree') == all && |Before(gs)| + p.idx == at && p.idx < |leaf'.ents| && leaf'.ents[p.idx] == e
    && Pages(p.s, tree') == Pages(s, tree) && Size(tree') == Size(tree) + grown
  }

  lemma {:induction false} RootLeaf(s: Txn, leaf: nat, idx: nat)
    requires StoreOk(s) && s.path == [] && LeafAt(s, leaf) && s.pages[leaf].ents != [] && s.pages[leaf].xid == s.xid
    ensures BptSet.SetLeaf(s, leaf, idx) == s.(root := Some(leaf))
  {
  }

  lemma {:induction false} FirstPage(s: Txn, e: Entry)
    requires StoreOk(s) && s.path == [] && s.supply != []
    ensures var b := s.supply[0];
            BptPut.PutFirst(s, e) == Put(WriteLeaf(s.(supply := s.supply[1..], root := Some(b)), b, [e]), true, b, 0)
  {
    hide BptSet.SetLeaf;
    var b := s.supply[0];
    assert b in s.supply && b !in s.supply[1..];
    RootLeaf(WriteLeaf(s.(supply := s.supply[1..]), b, [e]), b, 0);
  }

  lemma {:induction false} LooseFirst(s: Txn, t: Txn)
    requires s.supply != [] && t.supply == s.supply[1..] && t.gc == s.gc
    ensures multiset{s.supply[0]} + Loose(t) == Loose(s)
  {
    assert s.supply == [s.supply[0]] + s.supply[1..];
  }

  /** The pages after the first entry of a tree. */
  lemma {:induction false} FirstZip(s: Txn, e: Entry)
    requires StoreOk(s) && Distinct(Pages(s, None)) && s.path == [] && e.key <= KEY_MAX && s.supply != []
    ensures var p := BptPut.PutFirst(s, e);
            && p.find == s.supply[0] && p.idx == 0 && Zip(p.s, [], TLeaf(p.find, s.xid, [e]))
            && multiset{p.find} + Loose(p.s) == Loose(s)
  {
    hide BptPut.PutFirst;
    hide Distinct;
    hide Loose;
    FirstPage(s, e);
    var b := s.supply[0];
    assert b in s.supply && b !in s.supply[1..];
    var t := BptPut.PutFirst(s, e).s;
    LooseFirst(s, t);
    assert Pages(s, None) == multiset{b} + Loose(t) && PathBag([]) + multiset{b} == multiset{b};
  }

  lemma {:induction false} FirstOutcome(s: Txn, e: Entry) returns (leaf': Tree)
    requires Rooted(s, None) && s.path == [] && e.key <= KEY_MAX && !BptPut.PutFirst(s, e).s.failed
    ensures Outcome(s, None, BptPut.PutFirst(s, e), [], leaf', [e], 0, e, 1)
  {
    hide Zip;
    hide Distinct;
    hide Stored;
    hide Sound;
    FirstZip(s, e);
    var p := BptPut.PutFirst(s, e);
    leaf' := TLeaf(p.find, s.xid, [e]);
    ZipRooted(p.s, [], leaf');
    assert Pages(p.s, Some(leaf')) == Pages(s, None);
  }

  lemma {:induction false} StandsOutcome(s: Txn, fs: seq<Frame>, leaf: Tree, all: seq<Entry>, at: nat, e: Entry, grown: nat,
                                         p: Put, gs: seq<Frame>, leaf': Tree)
    requires Zip(s, fs, leaf) && Stands(s, fs, leaf, all, at, e, grown, p, gs, leaf')
    ensures Outcome(s, Some(Plug(fs, leaf)), p, gs, leaf', all, at, e, grown)
  {
    hide Rooted;
    hide Zip;
    hide Before;
    hide After;
    hide PathBag;
    hide Plug;
    ZipLeaf(s, fs, leaf);
    ZipLeaf(p.s, gs, leaf');
    ZipRooted(s, fs, leaf);
    ZipRooted(p.s, gs, leaf');
  }

  lemma {:induction false} ZipLeaf(s: Txn, fs: seq<Frame>, leaf: Tree)
    requires Zip(s, fs, leaf)
    ensures leaf.TLeaf?
  {
  }

  lemma {:induction false} RoomOutcome(s: Txn, fs: seq<Frame>, leaf: Tree, idx: nat, e: Entry, replace: bool)
    returns (gs: seq<Frame>, leaf': Tree)
    requires Zip(s, fs, leaf) && Fits(leaf.ents, idx, e, PathLow(fs), PathHigh(fs))
    requires if replace then idx < |leaf.ents| else |leaf.ents| < s.o.leaf
    requires !BptPut.PutRoom(s, leaf.no, idx, e, replace).s.failed
    ensures Outcome(s, Some(Plug(fs, leaf)), BptPut.PutRoom(s, leaf.no, idx, e, replace), gs, leaf',
                    Before(fs) + NewEntries(leaf.ents, idx, e, replace) + After(fs), |Before(fs)| + idx, e, 0)
  {
    hide BptPut.PutRoom;
    hide PathBag;
    hide Before;
    hide After;
    hide Outcome;
    hide Plug;
    hide SoundPath;
    hide Sound;
    hide StoredPath;
    hide Distinct;
    gs, leaf' := PutRoomZip(s, fs, leaf, idx, e, replace);
    assert NewEntries(leaf.ents, idx, e, replace)[idx] == e;
    StandsOutcome(s, fs, leaf, Before(fs) + NewEntries(leaf.ents, idx, e, replace) + After(fs), |Before(fs)| + idx, e, 0,
                  BptPut.PutRoom(s, leaf.no, idx, e, replace), gs, leaf');
  }

  // ---- ed_bpt_del

  function RemoveAt(ents: seq<Entry>, idx: nat): seq<Entry>
    requires idx < |ents|
  {
    ents[..idx] + ents[idx + 1..]
  }

  /** Takes entry `idx` out of the leaf, which is copied and hung back first if it is an older page. */
  function DelAt(s: Txn, leaf: nat, idx: nat): Put
    requires StoreOk(s) && Safe(s, 0) && LeafAt(s, leaf) && idx < |s.pages[leaf].ents|
  {
    var ents := RemoveAt(s.pages[leaf].ents, idx);
    if s.pages[leaf].xid == s.xid then Put(WriteLeaf(s, leaf, ents), true, leaf, idx)
    else if s.supply == [] then Failed(s)
    else
      OwnedSafe(s, leaf);
      var (s1, no) := Owned(s, leaf);
      var (t, ok) := BptStore.SetNode(s1, 0, no, LeafIndex(s1));
      if ok then Put(WriteLeaf(t, no, ents), true, no, idx) else Put(t, false, 0, 0)
  }

  lemma {:induction false} DelCareful(s: Txn, leaf: nat, idx: nat)
    requires StoreOk(s) && Safe(s, 0) && LeafAt(s, leaf) && idx < |s.pages[leaf].ents|
    ensures Careful(s, DelAt(s, leaf, idx).s)
    ensures !DelAt(s, leaf, idx).ok ==> DelAt(s, leaf, idx).s.failed
  {
    hide BptStore.SetNode;
    hide Kept;
    hide Owned;
    var ents := RemoveAt(s.pages[leaf].ents, idx);
    if s.pages[leaf].xid == s.xid {
      WriteLeafKept(s, leaf, ents);
      CarefulBy(s, WriteLeaf(s, leaf, ents), {leaf});
    } else if s.supply == [] {
      FailedKept(s);
    } else {
      OwnedSafe(s, leaf);
      var (s1, no) := Owned(s, leaf);
      CarefulBy(s, s1, {});
      SetNodeClimbed(s1, 0, no, LeafIndex(s1));
      var (t, ok) := BptStore.SetNode(s1, 0, no, LeafIndex(s1));
      CarefulBy(s1, t, PathNos(s1, 0));
      CarefulTrans(s, s1, t);
      if ok {
        ClimbedLeaf(s1, t, no);
        WriteLeafKept(t, no, ents);
        CarefulBy(t, WriteLeaf(t, no, ents), {no});
        CarefulTrans(s, t, WriteLeaf(t, no, ents));
      }
    }
  }

  /** A climb leaves leaves alone. */
  lemma {:induction false} ClimbedLeaf(s: Txn, t: Txn, no: nat)
    requires StoreOk(s) && Safe(s, 0) && LeafAt(s, no) && Climbed(s, t, 0)
    ensures StoreOk(t) && Safe(t, 0) && t.xid == s.xid && LeafAt(t, no) && t.pages[no] == s.pages[no]
  {
    assert no !in PathNos(s, 0);
  }

  /** An owned leaf rewritten in place inside its range. */
  lemma {:induction false} RewriteZip(s: Txn, fs: seq<Frame>, leaf: Tree, ents: seq<Entry>)
    requires Zip(s, fs, leaf) && leaf.xid == s.xid
    requires |ents| <= s.o.leaf && SortedEntries(ents) && Within(ents, PathLow(fs), PathHigh(fs))
    ensures var t := WriteLeaf(s, leaf.no, ents);
            Zip(t, fs, TLeaf(leaf.no, s.xid, ents)) && Loose(t) == Loose(s)
  {
    hide StoredPath;
    hide SoundPath;
    hide Distinct;
    var t := WriteLeaf(s, leaf.no, ents);
    WriteLeafKept(s, leaf.no, ents);
    LeafHolds(s, t, fs, leaf);
    PlugNo(fs, leaf);
    PlugNo(fs, TLeaf(leaf.no, s.xid, ents));
  }

  lemma {:induction false} RemovedSorted(ents: seq<Entry>, idx: nat, lo: int, hi: int)
    requires SortedEntries(ents) && Within(ents, lo, hi) && idx < |ents|
    ensures SortedEntries(RemoveAt(ents, idx)) && Within(RemoveAt(ents, idx), lo, hi)
  {
    var r := RemoveAt(ents, idx);
    assert forall i | 0 <= i < |r| :: r[i] == if i < idx then ents[i] else ents[i + 1];
  }

  /** The copied leaf, hung back. */
  lemma {:induction false} CopyZip(s: Txn, fs: seq<Frame>, leaf: Tree) returns (gs: seq<Frame>)
    requires Zip(s, fs, leaf) && CanOwn(s, leaf.no)
    requires var (s1, no) := Owned(s, leaf.no); StoreOk(s1) && Safe(s1, 0) && !BptStore.SetNode(s1, 0, no, LeafIndex(s1)).0.failed
    ensures var (s1, no) := Owned(s, leaf.no);
            var t, leaf' := BptStore.SetNode(s1, 0, no, LeafIndex(s1)).0, TLeaf(no, s.xid, leaf.ents);
            && Zip(t, gs, leaf') && SameSides(fs, gs) && PathLow(gs) == PathLow(fs) && PathHigh(gs) == PathHigh(fs)
            && t.xid == s.xid && t.o == s.o
            && PathBag(gs) + multiset{no} + Loose(t) == PathBag(fs) + multiset{leaf.no} + Loose(s)
  {
    hide BptStore.SetNode;
    hide Copied;
    hide StoredPath;
    hide SoundFrame;
    hide Sound;
    hide Distinct;
    LeafSorted(s, fs, leaf);
    OwnedLeafFits(s, fs, leaf, leaf.ents);
    OwnedKept(s, leaf.no);
    var (s1, no) := Owned(s, leaf.no);
    assert WriteLeaf(s1, no, leaf.ents) == s1;
    gs := ClimbZip(s1, fs, TLeaf(no, s.xid, leaf.ents), leaf.no);
    CopiedSame(fs, gs, s.xid);
    CopiedSound(fs, gs, s.xid, 0, s.o);
  }

  /** Exactly the cursor's entry goes; paths keep their sides and their key range, so no separator
      needs to change. */
  lemma {:induction false} DelZip(s: Txn, fs: seq<Frame>, leaf: Tree, idx: nat) returns (gs: seq<Frame>, leaf': Tree)
    requires Zip(s, fs, leaf) && idx < |leaf.ents|
    requires !DelAt(s, leaf.no, idx).s.failed
    ensures var p := DelAt(s, leaf.no, idx);
            && p.ok && Zip(p.s, gs, leaf') && p.find == leaf'.no && p.idx == idx
            && leaf' == TLeaf(p.find, s.xid, RemoveAt(leaf.ents, idx))
            && SameSides(fs, gs) && PathLow(gs) == PathLow(fs) && PathHigh(gs) == PathHigh(fs)
            && PathBag(gs) + multiset{leaf'.no} + Loose(p.s) == PathBag(fs) + multiset{leaf.no} + Loose(s)
  {
    hide BptStore.SetNode;
    hide Owned;
    hide StoredPath;
    hide SoundPath;
    hide Sound;
    hide Distinct;
    hide PathBag;
    LeafSorted(s, fs, leaf);
    RemovedSorted(leaf.ents, idx, PathLow(fs), PathHigh(fs));
    DelCareful(s, leaf.no, idx);
    var ents := RemoveAt(leaf.ents, idx);
    if leaf.xid == s.xid {
      gs, leaf' := fs, TLeaf(leaf.no, s.xid, ents);
      RewriteZip(s, fs, leaf, ents);
    } else {
      OwnedSafe(s, leaf.no);
      var (s1, no) := Owned(s, leaf.no);
      SetNodeClimbed(s1, 0, no, LeafIndex(s1));
      gs := CopyZip(s, fs, leaf);
      leaf' := TLeaf(no, s.xid, ents);
      RewriteZip(BptStore.SetNode(s1, 0, no, LeafIndex(s1)).0, gs, TLeaf(no, s.xid, leaf.ents), ents);
    }
  }

  /** find_kmax: the greatest key the separators above allow in the leaf. */
  function FindKmax(s: Txn, level: nat): int
    requires level <= |s.path| && Safe(s, level)
    decreases |s.path| - level
  {
    if level == |s.path| then KEY_MAX
    else
      var keys, i := s.pages[s.path[level].no].keys, s.path[level].pindex;
      if i < |keys| then (keys[i] as int) - 1 else FindKmax(s, level + 1)
  }

  lemma {:induction false} FindKmaxPath(s: Txn, level: nat, fs: seq<Frame>, hole: nat)
    requires level <= |s.path| && Safe(s, level) && Holds(s, level, fs, hole)
    ensures FindKmax(s, level) == PathHigh(fs)
    decreases |fs|
  {
    if fs != [] {
      HoldsTail(s, level, fs, hole);
      HoldsPage(s, level, fs, hole);
      FindKmaxPath(s, level + 1, fs[1..], fs[0].no);
    }
  }

  // ---- an edit of one leaf seen in all entries

  lemma {:induction false} EditWithin(a: seq<Entry>, ents: seq<Entry>, b: seq<Entry>, idx: nat, e: Entry)
    requires idx <= |ents|
    ensures a + InsertAt(ents, idx, e) + b == InsertAt(a + ents + b, |a| + idx, e)
    ensures idx < |ents| ==> a + ents[idx := e] + b == (a + ents + b)[|a| + idx := e]
    ensures idx < |ents| ==> a + RemoveAt(ents, idx) + b == RemoveAt(a + ents + b, |a| + idx)
  {
    var all := a + ents + b;
    assert all[..|a| + idx] == a + ents[..idx];
    assert all[|a| + idx..] == ents[idx..] + b;
    if idx < |ents| {
      assert all[|a| + idx + 1..] == ents[idx + 1..] + b;
    }
  }

  lemma {:induction false} RoomEdited(s: Txn, fs: seq<Frame>, leaf: Tree, idx: nat, e: Entry, replace: bool)
    returns (gs: seq<Frame>, leaf': Tree)
    requires Zip(s, fs, leaf) && Fits(leaf.ents, idx, e, PathLow(fs), PathHigh(fs))
    requires if replace then idx < |leaf.ents| else |leaf.ents| < s.o.leaf
    requires !BptPut.PutRoom(s, leaf.no, idx, e, replace).s.failed
    ensures var all, at := Flatten(Plug(fs, leaf)), |Before(fs)| + idx;
            && at <= |all| && (replace ==> at < |all|)
            && Outcome(s, Some(Plug(fs, leaf)), BptPut.PutRoom(s, leaf.no, idx, e, replace), gs, leaf',
                       NewEntries(all, at, e, replace), at, e, 0)
  {
    hide BptPut.PutRoom;
    hide Outcome;
    hide Plug;
    hide Before;
    hide After;
    hide SoundPath;
    hide Sound;
    hide StoredPath;
    hide Distinct;
    hide Rooted;
    gs, leaf' := RoomOutcome(s, fs, leaf, idx, e, replace);
    ZipRooted(s, fs, leaf);
    EditWithin(Before(fs), leaf.ents, After(fs), idx, e);
  }

  lemma {:induction false} ZipPage(s: Txn, fs: seq<Frame>, leaf: Tree)
    requires Zip(s, fs, leaf)
    ensures StoreOk(s) && Safe(s, 0) && leaf.TLeaf? && LeafAt(s, leaf.no) && s.pages[leaf.no].ents == leaf.ents
  {
  }

  lemma {:induction false} SplitEdited(s: Txn, fs: seq<Frame>, leaf: Tree, idx: nat, key: nat, mid: nat, e: Entry)
    returns (gs: seq<Frame>, leaf': Tree)
    requires Splittable(s, fs, leaf, idx, key, mid, e) && !(mid == idx && e.key < key)
    requires 0 < mid < |leaf.ents| && idx <= |leaf.ents|
    requires CanHalve(s, leaf.no) ==>
               Safe(BptPut.HalveLeaf(s, leaf.no, mid).0, 0) && BptPut.HalveLeaf(s, leaf.no, mid).0.o.branch >= 4 &&
               Agrees(BptPut.HalveLeaf(s, leaf.no, mid).0, 0, SplitKey(leaf.ents, key, idx, mid))
    requires !BptPut.PutSplit(s, leaf.no, idx, key, mid, e).s.failed
    ensures var all, at := Flatten(Plug(fs, leaf)), |Before(fs)| + idx;
            && at <= |all|
            && Outcome(s, Some(Plug(fs, leaf)), BptPut.PutSplit(s, leaf.no, idx, key, mid, e), gs, leaf',
                       InsertAt(all, at, e), at, e, 1 + Growth(fs, s.o))
  {
    hide Growth;
    hide SplitPoint;
    hide Fits;
    hide PathLow;
    hide PathHigh;
    hide PathBag;
    hide Height;
    hide Bag;
    hide Flatten;
    hide InsertAt;
    hide BptPut.PutSplit;
    hide BptPut.HalveLeaf;
    hide Outcome;
    hide Stands;
    hide Plug;
    hide Before;
    hide After;
    hide Zip;
    hide StoreOk;
    hide Safe;
    hide Rooted;
    hide Agrees;
    ZipPage(s, fs, leaf);
    gs, leaf' := PutSplitStands(s, fs, leaf, idx, key, mid, e);
    StandsOutcome(s, fs, leaf, Before(fs) + InsertAt(leaf.ents, idx, e) + After(fs), |Before(fs)| + idx, e, 1 + Growth(fs, s.o),
                  BptPut.PutSplit(s, leaf.no, idx, key, mid, e), gs, leaf');
    ZipRooted(s, fs, leaf);
    EditWithin(Before(fs), leaf.ents, After(fs), idx, e);
  }
}
