/** Searching a tree (lib/bpt.c branch_search and ed_bpt_find), without the cursor it sets. */
module BptFind {
  import opened BptTree
  import opened BptGrow
  import opened BptLeaf
  import opened BptStore
  import opened BptSet
  import opened BptOrder
  import opened BptWhole
  import opened BptOutcome

  /** The least key that may stand at `idx` given what is before it. */
  function WindowLow(ents: seq<Entry>, idx: nat, lo: int): int {
    if 0 < idx <= |ents| then ents[idx - 1].key else lo
  }

  /** The greatest key that may stand at `idx` given what is from there on. */
  function WindowHigh(ents: seq<Entry>, idx: nat, hi: int): int {
    if idx < |ents| then ents[idx].key else hi
  }

  /** The window holds exactly the keys that fit at the position: those that keep the leaf sorted and
      inside the range its ancestors' separators leave it. */
  lemma {:induction false} WindowExact(ents: seq<Entry>, idx: nat, e: Entry, lo: int, hi: int)
    requires SortedEntries(ents) && Within(ents, lo, hi) && idx <= |ents|
    ensures WindowLow(ents, idx, lo) <= e.key <= WindowHigh(ents, idx, hi) <==> Fits(ents, idx, e, lo, hi)
    ensures Fits(ents, idx, e, lo, hi) <==> SortedEntries(InsertAt(ents, idx, e)) && Within(InsertAt(ents, idx, e), lo, hi)
  {
    var r := InsertAt(ents, idx, e);
    if Fits(ents, idx, e, lo, hi) {
      InsertAtSorted(ents, idx, e, lo, hi);
    }
    assert r[idx] == e;
    assert idx > 0 ==> r[idx - 1] == ents[idx - 1];
    assert idx < |ents| ==> r[idx + 1] == ents[idx];
  }

  /** Equal keys never span two leaves: every entry left of a leaf is below all its keys, every entry
      right of it above. */
  lemma {:induction false} EqualKeysTogether(s: Txn, fs: seq<Frame>, leaf: Tree, i: nat)
    requires Zip(s, fs, leaf) && leaf.TLeaf? && i < |leaf.ents|
    ensures forall j | 0 <= j < |Before(fs)| :: Before(fs)[j].key < leaf.ents[i].key
    ensures forall j | 0 <= j < |After(fs)| :: leaf.ents[i].key < After(fs)[j].key
  {
    hide SoundPath;
    hide Before;
    hide After;
    hide Zip;
    ZipFacts(s, fs, leaf);
    SidesSorted(fs, 0, s.o);
  }

  /** branch_search: the one child whose range holds `key`. */
  method BranchSearch(keys: seq<nat>, key: nat, ghost lo: int, ghost hi: int) returns (i: nat)
    requires Separators(keys, lo, hi) && lo <= key <= hi
    ensures i <= |keys| && Low(keys, lo, i) <= key <= High(keys, hi, i)
    ensures forall j: nat | j <= |keys| && Low(keys, lo, j) <= key <= High(keys, hi, j) :: j == i
  {
    i := 0;
    while i < |keys|
      invariant i <= |keys| && forall j | 0 <= j < i :: keys[j] < key
    {
      if key < keys[i] {
        break;
      }
      i := i + 1;
      if key == keys[i - 1] {
        break;
      }
    }
  }

  /** The leaf part of ed_bpt_find: the first entry of `key` or the place for one, and the window there. */
  method LeafSearch(ents: seq<Entry>, key: nat, lo: nat, hi: nat) returns (i: nat, rc: nat, kmin: nat, kmax: nat)
    requires SortedEntries(ents)
    ensures LowerBound(ents, key, i) && AtKey(ents, key, i, rc)
    ensures rc == if exists e | e in ents :: e.key == key then 1 else 0
    ensures kmin == WindowLow(ents, i, lo) && kmax == WindowHigh(ents, i, hi)
    ensures lo <= key <= hi ==> kmin <= key <= kmax
  {
    i, rc, kmin, kmax := 0, 0, lo, hi;
    while i < |ents|
      invariant i <= |ents| && rc == 0 && kmin == WindowLow(ents, i, lo) && kmax == hi
      invariant forall j | 0 <= j < i :: ents[j].key < key
    {
      var cmp := ents[i].key;
      if key == cmp {
        kmax, rc := cmp, 1;
        assert ents[i] in ents;
        return;
      } else if key < cmp {
        kmax := cmp;
        return;
      }
      kmin := cmp;
      i := i + 1;
    }
  }

  /** The child that keys from the separator before it up lead to. */
  function Turn(keys: seq<nat>, k: nat): nat {
    if keys == [] || k < keys[0] then 0 else 1 + Turn(keys[1..], k)
  }

  lemma {:induction false} TurnAt(keys: seq<nat>, k: nat, i: nat, lo: int, hi: int)
    requires Separators(keys, lo, hi) && i <= |keys| && Low(keys, lo, i) <= k <= High(keys, hi, i)
    ensures Turn(keys, k) == i
    decreases |keys|
  {
    if keys != [] && i > 0 {
      assert keys[0] <= keys[i - 1];
      TurnAt(keys[1..], k, i - 1, keys[0], hi);
    }
  }

  /** The way down for a key, as frames above the leaf, given those above `t`. */
  function Way(t: Tree, k: nat, fs: seq<Frame>): (seq<Frame>, Tree)
    decreases t
  {
    if t.TLeaf? || Turn(t.keys, k) >= |t.kids| then (fs, t)
    else var i := Turn(t.keys, k); Way(t.kids[i], k, [Open(t, i)] + fs)
  }

  /** The branch part of ed_bpt_find: down to the leaf whose range holds `key`, counting the full pages
      that end the way there. */
  method Descend(s: Txn, key: nat, ghost tree: Tree)
    returns (path: seq<Step>, no: nat, nsplits: nat, kmin: nat, kmax: nat, ghost fs: seq<Frame>, ghost leaf: Tree)
    requires Rooted(s, Some(tree)) && key <= KEY_MAX
    ensures Zip(s.(path := path), fs, leaf) && Plug(fs, leaf) == tree && no == leaf.no
    ensures kmin == PathLow(fs) && kmax == PathHigh(fs) && kmin <= key <= kmax
    ensures |leaf.ents| == s.o.leaf ==> nsplits == Growth(fs, s.o)
    ensures (fs, leaf) == Way(tree, key, [])
  {
    hide Rooted;
    hide Descended;
    hide Growth;
    hide PathLow;
    hide PathHigh;
    DescendStart(s, tree);
    DescendRoot(s, tree);
    path, no, kmin, kmax := [], s.root.value, 0, KEY_MAX;
    fs, leaf := [], tree;
    ghost var h := Height(tree);
    nsplits := if IsFull(s.pages[no], s.o) then 1 else 0;
    while s.pages[no].Branch?
      invariant Descended(s.(path := path), tree, fs, leaf, h) && no == leaf.no
      invariant no in s.pages && s.pages[no] == PageOf(leaf)
      invariant kmin == PathLow(fs) && kmax == PathHigh(fs) && kmin <= key <= kmax
      invariant IsFull(s.pages[no], s.o) ==> nsplits == Growth(fs, s.o)
      invariant Way(tree, key, []) == Way(leaf, key, fs)
      decreases h
    {
      DescendPage(s.(path := path), tree, fs, leaf, h);
      var page := s.pages[no];
      nsplits := if IsFull(page, s.o) then nsplits + 1 else 0;
      var i := BranchSearch(page.keys, key, kmin, kmax);
      TurnAt(page.keys, key, i, kmin, kmax);
      DescendStep(s.(path := path), tree, fs, leaf, h, i);
      if i > 0 {
        kmin := page.keys[i - 1];
      }
      if i < |page.keys| {
        kmax := page.keys[i] - 1;
      }
      path, no := [Step(no, i)] + path, page.ptrs[i];
      fs, leaf, h := [Open(leaf, i)] + fs, leaf.kids[i], h - 1;
      DescendPage(s.(path := path), tree, fs, leaf, h);
    }
    DescendPlug(s.(path := path), tree, fs, leaf, h);
    DescendEnd(s.(path := path), tree, fs, leaf, h);
  }

  predicate IsFull(page: Page, o: Orders) {
    match page
    case Leaf(_, ents) => |ents| == o.leaf
    case Branch(_, keys, _) => |keys| == o.branch - 1
  }

  lemma {:induction false} DescendRoot(s: Txn, tree: Tree)
    requires Rooted(s, Some(tree))
    ensures s.root == Some(tree.no) && tree.no in s.pages && s.pages[tree.no] == PageOf(tree)
    ensures PathLow([]) == 0 && PathHigh([]) == KEY_MAX && Growth([], s.o) == 1
  {
  }

  lemma {:induction false} DescendPlug(s: Txn, tree: Tree, fs: seq<Frame>, t: Tree, h: nat)
    requires Descended(s, tree, fs, t, h)
    ensures Plug(fs, t) == tree && t.no in s.pages && s.pages[t.no] == PageOf(t)
  {
  }

  lemma {:induction false} RootedPath(s: Txn, tree: Option<Tree>, path: seq<Step>)
    requires Rooted(s, tree)
    ensures Rooted(s.(path := path), tree) && StoreOk(s.(path := path)) && (tree.None? <==> s.root.None?)
    ensures tree.None? ==> LowerBound(Entries(tree), 0, 0) && forall k :: LowerBound(Entries(tree), k, 0)
  {
  }

  lemma {:induction false} ZipFacts(s: Txn, fs: seq<Frame>, leaf: Tree)
    requires Zip(s, fs, leaf)
    ensures leaf.TLeaf? && leaf.no in s.pages && s.pages[leaf.no] == Leaf(leaf.xid, leaf.ents)
    ensures SortedEntries(leaf.ents) && Within(leaf.ents, PathLow(fs), PathHigh(fs)) && |leaf.ents| <= s.o.leaf
    ensures SoundPath(fs, 0, s.o)
  {
  }

  lemma {:induction false} FoundWithin(a: seq<Entry>, ents: seq<Entry>, b: seq<Entry>, k: nat, idx: nat)
    requires idx <= |ents| && LowerBound(a + ents + b, k, |a| + idx) && forall i | 0 <= i < |b| :: b[i].key > k
    ensures var all := a + ents + b;
            && ((exists e | e in all :: e.key == k) <==> (exists e | e in ents :: e.key == k))
            && (idx < |ents| ==> |a| + idx < |all| && all[|a| + idx] == ents[idx])
  {
    var all := a + ents + b;
    assert forall i | 0 <= i < |a| :: all[i] == a[i];
    assert forall e | e in a :: e.key < k;
  }

  /** A place found in the leaf is the place among all entries. */
  lemma {:induction false} FoundAt(s: Txn, fs: seq<Frame>, leaf: Tree, k: nat, idx: nat)
    requires Zip(s, fs, leaf) && PathLow(fs) <= k <= PathHigh(fs) && leaf.TLeaf? && LowerBound(leaf.ents, k, idx)
    ensures var all := Flatten(Plug(fs, leaf));
            && LowerBound(all, k, |Before(fs)| + idx)
            && ((exists e | e in all :: e.key == k) <==> (exists e | e in leaf.ents :: e.key == k))
            && (idx < |leaf.ents| ==> |Before(fs)| + idx < |all| && all[|Before(fs)| + idx] == leaf.ents[idx])
  {
    hide Zip;
    hide SoundPath;
    hide Rooted;
    hide Plug;
    hide Before;
    hide After;
    ZipFacts(s, fs, leaf);
    ZipRooted(s, fs, leaf);
    LeafLowerBound(fs, 0, s.o, leaf.ents, k, idx);
    FoundWithin(Before(fs), leaf.ents, After(fs), k, idx);
  }

  /** ed_bpt_find as a whole, on a tree with or without pages. */
  method Search(s: Txn, k: nat, ghost tree: Option<Tree>)
    returns (path: seq<Step>, find: Option<nat>, idx: nat, rc: nat, nsplits: nat, kmin: nat, kmax: nat,
             ghost fs: seq<Frame>, ghost leaf: Tree)
    requires Rooted(s, tree) && k <= KEY_MAX
    ensures var t := s.(path := path); StoreOk(t) && Rooted(t, tree) && On(t, find, tree, fs, leaf)
    ensures kmin <= k <= kmax
    ensures rc == if exists e | e in Entries(tree) :: e.key == k then 1 else 0
    ensures tree.None? ==> fs == [] && leaf == TLeaf(0, 0, []) && idx == rc == 0 && nsplits == 1 && kmin == 0 && kmax == KEY_MAX && LowerBound(Entries(tree), k, 0)
    ensures tree.Some? ==>
              && leaf.TLeaf? && LowerBound(Entries(tree), k, |Before(fs)| + idx)
              && AtKey(leaf.ents, k, idx, rc) && idx <= |leaf.ents| && (rc == 1 ==> idx < |leaf.ents|)
              && (rc == 1 ==> |Before(fs)| + idx < |Entries(tree)| && Entries(tree)[|Before(fs)| + idx].key == k)
              && kmin == WindowLow(leaf.ents, idx, PathLow(fs)) && kmax == WindowHigh(leaf.ents, idx, PathHigh(fs))
              && nsplits == (if |leaf.ents| == s.o.leaf then 1 + Growth(fs, s.o) else 0)
              && (fs, leaf) == Way(tree.value, k, [])
  {
    hide Rooted;
    hide Zip;
    hide Plug;
    hide Before;
    hide PathLow;
    hide PathHigh;
    hide Growth;
    hide StoreOk;
    RootedPath(s, tree, []);
    path, find, idx, rc, nsplits, kmin, kmax := [], s.root, 0, 0, 1, 0, KEY_MAX;
    fs, leaf := [], TLeaf(0, 0, []);
    if s.root != None {
      var no;
      path, no, nsplits, kmin, kmax, fs, leaf := Descend(s, k, tree.value);
      ZipFacts(s.(path := path), fs, leaf);
      RootedPath(s, tree, path);
      find := Some(no);
      var ents := s.pages[no].ents;
      nsplits := if |ents| == s.o.leaf then nsplits + 1 else 0;
      idx, rc, kmin, kmax := LeafSearch(ents, k, kmin, kmax);
      FoundAt(s.(path := path), fs, leaf, k, idx);
    }
  }
}
