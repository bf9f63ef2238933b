/** The value view of a copy-on-write B+tree (lib/bpt.c): trees of numbered pages, what it means for
    a page store to hold one, and zippers, which split a tree at the path a cursor has walked. */
module BptTree {

  datatype Option<T> = None | Some(value: T)

  const KEY_MAX: nat := 0xFFFF_FFFF_FFFF_FFFF

  /** A leaf entry: a 64-bit key followed by its payload. */
  datatype Entry = Entry(key: nat, val: nat)

  /** Page fan-out: entries per leaf and children per branch. */
  datatype Orders = Orders(leaf: nat, branch: nat)

  /** A stored page; `nkeys` is the length of `ents` or of `keys`. */
  datatype Page =
    | Leaf(xid: nat, ents: seq<Entry>)
    | Branch(xid: nat, keys: seq<nat>, ptrs: seq<nat>)

  datatype Tree =
    | TLeaf(no: nat, xid: nat, ents: seq<Entry>)
    | TBranch(no: nat, xid: nat, keys: seq<nat>, kids: seq<Tree>)

  /** A branch with one child taken out: the hole is between `left` and `right`. */
  datatype Frame = Frame(no: nat, xid: nat, keys: seq<nat>, left: seq<Tree>, right: seq<Tree>)

  // ---- entries in key order

  function Flatten(t: Tree): seq<Entry>
    decreases t, 1
  {
    match t
    case TLeaf(_, _, ents) => ents
    case TBranch(_, _, _, kids) => FlattenAll(kids)
  }

  function FlattenAll(ts: seq<Tree>): seq<Entry>
    decreases ts, 0
  {
    if ts == [] then [] else Flatten(ts[0]) + FlattenAll(ts[1..])
  }

  lemma {:induction false} FlattenAppend(a: seq<Tree>, b: seq<Tree>)
    ensures FlattenAll(a + b) == FlattenAll(a) + FlattenAll(b)
  {
    if a == [] {
      assert a + b == b;
    } else {
      assert (a + b)[1..] == a[1..] + b;
      FlattenAppend(a[1..], b);
    }
  }

  // ---- pages a tree occupies

  function Bag(t: Tree): multiset<nat>
    decreases t, 1
  {
    match t
    case TLeaf(no, _, _) => multiset{no}
    case TBranch(no, _, _, kids) => multiset{no} + BagAll(kids)
  }

  function BagAll(ts: seq<Tree>): multiset<nat>
    decreases ts, 0
  {
    if ts == [] then multiset{} else Bag(ts[0]) + BagAll(ts[1..])
  }

  ghost predicate Distinct(m: multiset<nat>) {
    forall p :: m[p] <= 1
  }

  lemma {:induction false} BagAppend(a: seq<Tree>, b: seq<Tree>)
    ensures BagAll(a + b) == BagAll(a) + BagAll(b)
  {
    if a == [] {
      assert a + b == b;
    } else {
      assert (a + b)[1..] == a[1..] + b;
      BagAppend(a[1..], b);
    }
  }

  lemma {:induction false} BagOfKid(ts: seq<Tree>, i: nat)
    requires i < |ts|
    ensures Bag(ts[i]) <= BagAll(ts)
  {
    if i > 0 {
      BagOfKid(ts[1..], i - 1);
      assert ts[1..][i - 1] == ts[i];
    }
  }

  // ---- a page store holding a tree

  function Nos(ts: seq<Tree>): seq<nat> {
    seq(|ts|, i requires 0 <= i < |ts| => ts[i].no)
  }

  function PageOf(t: Tree): Page {
    match t
    case TLeaf(_, xid, ents) => Leaf(xid, ents)
    case TBranch(_, xid, keys, kids) => Branch(xid, keys, Nos(kids))
  }

  ghost predicate Stored(pages: map<nat, Page>, t: Tree) {
    && t.no in pages
    && pages[t.no] == PageOf(t)
    && (t.TBranch? ==> forall i | 0 <= i < |t.kids| :: Stored(pages, t.kids[i]))
  }

  ghost predicate StoredAll(pages: map<nat, Page>, ts: seq<Tree>) {
    forall i | 0 <= i < |ts| :: Stored(pages, ts[i])
  }

  /** The two stores agree on every page of `m`. */
  ghost predicate Agree(a: map<nat, Page>, b: map<nat, Page>, m: multiset<nat>) {
    forall p | p in m && p in a :: p in b && b[p] == a[p]
  }

  lemma {:induction false} StoredKept(a: map<nat, Page>, b: map<nat, Page>, t: Tree)
    requires Stored(a, t) && Agree(a, b, Bag(t))
    ensures Stored(b, t)
    decreases t, 1
  {
    if t.TBranch? {
      StoredAllKept(a, b, t.kids);
    }
  }

  lemma {:induction false} StoredAllKept(a: map<nat, Page>, b: map<nat, Page>, ts: seq<Tree>)
    requires StoredAll(a, ts) && Agree(a, b, BagAll(ts))
    ensures StoredAll(b, ts)
    decreases ts, 0
  {
    forall i | 0 <= i < |ts| ensures Stored(b, ts[i]) {
      BagOfKid(ts, i);
      StoredKept(a, b, ts[i]);
    }
  }

  // ---- search order, fan-out and uniform depth

  predicate SortedEntries(ents: seq<Entry>) {
    forall i, j | 0 <= i < j < |ents| :: ents[i].key <= ents[j].key
  }

  predicate Within(ents: seq<Entry>, lo: int, hi: int) {
    forall i | 0 <= i < |ents| :: lo <= ents[i].key <= hi
  }

  /** Separators strictly increase inside (lo, hi]. */
  predicate Separators(keys: seq<nat>, lo: int, hi: int) {
    && (forall i | 0 <= i < |keys| :: lo < keys[i] <= hi)
    && (forall i, j | 0 <= i < j < |keys| :: keys[i] < keys[j])
  }

  /** The least key allowed in child `i`. */
  function Low(keys: seq<nat>, lo: int, i: nat): int {
    if i == 0 || |keys| < i then lo else keys[i - 1]
  }

  /** The greatest key allowed in child `i`. */
  function High(keys: seq<nat>, hi: int, i: nat): int {
    if |keys| <= i then hi else (keys[i] as int) - 1
  }

  predicate Sound(t: Tree, h: nat, lo: int, hi: int, o: Orders)
    decreases t
  {
    match t
    case TLeaf(_, _, ents) =>
      h == 0 && |ents| <= o.leaf && SortedEntries(ents) && Within(ents, lo, hi)
    case TBranch(_, _, keys, kids) =>
      && h > 0
      && 1 <= |keys| < o.branch
      && |kids| == |keys| + 1
      && Separators(keys, lo, hi)
      && forall i | 0 <= i < |kids| :: Sound(kids[i], h - 1, Low(keys, lo, i), High(keys, hi, i), o)
  }

  lemma {:induction false} SoundWiden(t: Tree, h: nat, lo: int, hi: int, lo': int, hi': int, o: Orders)
    requires Sound(t, h, lo, hi, o)
    requires lo' <= lo && hi <= hi'
    ensures Sound(t, h, lo', hi', o)
    decreases t
  {
    if t.TBranch? {
      forall i | 0 <= i < |t.kids|
        ensures Sound(t.kids[i], h - 1, Low(t.keys, lo', i), High(t.keys, hi', i), o)
      {
        SoundWiden(t.kids[i], h - 1, Low(t.keys, lo, i), High(t.keys, hi, i),
                   Low(t.keys, lo', i), High(t.keys, hi', i), o);
      }
    }
  }

  // ---- zippers: frames from the innermost to the root

  function PlugNode(f: Frame, t: Tree): Tree {
    TBranch(f.no, f.xid, f.keys, f.left + [t] + f.right)
  }

  function Plug(fs: seq<Frame>, t: Tree): Tree
    decreases |fs|
  {
    if fs == [] then t else Plug(fs[1..], PlugNode(fs[0], t))
  }

  /** Entries to the left of the hole. */
  function Before(fs: seq<Frame>): seq<Entry> {
    if fs == [] then [] else Before(fs[1..]) + FlattenAll(fs[0].left)
  }

  /** Entries to the right of the hole. */
  function After(fs: seq<Frame>): seq<Entry> {
    if fs == [] then [] else FlattenAll(fs[0].right) + After(fs[1..])
  }

  function FrameBag(f: Frame): multiset<nat> {
    multiset{f.no} + BagAll(f.left) + BagAll(f.right)
  }

  function PathBag(fs: seq<Frame>): multiset<nat> {
    if fs == [] then multiset{} else FrameBag(fs[0]) + PathBag(fs[1..])
  }

  /** The key range the separators above the hole leave for it. */
  function PathLow(fs: seq<Frame>): int {
    if fs == [] then 0
    else Low(fs[0].keys, PathLow(fs[1..]), |fs[0].left|)
  }

  function PathHigh(fs: seq<Frame>): int {
    if fs == [] then KEY_MAX
    else High(fs[0].keys, PathHigh(fs[1..]), |fs[0].left|)
  }

  /** `ts` are children number `base` and on of a branch with separators `keys`. */
  predicate SoundSide(ts: seq<Tree>, keys: seq<nat>, base: nat, h: nat, lo: int, hi: int, o: Orders) {
    && base + |ts| <= |keys| + 1
    && forall i | 0 <= i < |ts| :: Sound(ts[i], h, Low(keys, lo, base + i), High(keys, hi, base + i), o)
  }

  /** `f` with `gap` adjacent children missing at the hole. */
  predicate SoundFrame(f: Frame, gap: nat, h: nat, lo: int, hi: int, o: Orders) {
    && 1 <= |f.keys| < o.branch
    && |f.keys| + 1 == |f.left| + gap + |f.right|
    && gap > 0
    && Separators(f.keys, lo, hi)
    && SoundSide(f.left, f.keys, 0, h, lo, hi, o)
    && SoundSide(f.right, f.keys, |f.left| + gap, h, lo, hi, o)
  }

  lemma {:induction false} MakeFrame(f: Frame, gap: nat, h: nat, lo: int, hi: int, o: Orders)
    requires 1 <= |f.keys| < o.branch && |f.keys| + 1 == |f.left| + gap + |f.right| && gap > 0
    requires Separators(f.keys, lo, hi)
    requires SoundSide(f.left, f.keys, 0, h, lo, hi, o)
    requires SoundSide(f.right, f.keys, |f.left| + gap, h, lo, hi, o)
    ensures SoundFrame(f, gap, h, lo, hi, o)
  {
  }

  /** Children keep their ranges when the bounds around them read the same. */
  lemma {:induction false} SideMoved(ts: seq<Tree>, h: nat, o: Orders,
                  keys: seq<nat>, base: nat, lo: int, hi: int, keys': seq<nat>, base': nat, lo': int, hi': int)
    requires SoundSide(ts, keys, base, h, lo, hi, o) && base' + |ts| <= |keys'| + 1
    requires forall j: nat | base <= j < base + |ts| :: Low(keys', lo', j - base + base') == Low(keys, lo, j)
    requires forall j: nat | base <= j < base + |ts| :: High(keys', hi', j - base + base') == High(keys, hi, j)
    ensures SoundSide(ts, keys', base', h, lo', hi', o)
  {
    forall i | 0 <= i < |ts| ensures Sound(ts[i], h, Low(keys', lo', base' + i), High(keys', hi', base' + i), o) {
      assert Low(keys, lo, base + i) == Low(keys', lo', base + i - base + base');
      assert High(keys, hi, base + i) == High(keys', hi', base + i - base + base');
    }
  }

  predicate SoundPath(fs: seq<Frame>, h: nat, o: Orders)
    decreases |fs|
  {
    fs == [] ||
    (SoundFrame(fs[0], 1, h, PathLow(fs[1..]), PathHigh(fs[1..]), o) && SoundPath(fs[1..], h + 1, o))
  }

  ghost predicate StoredFrame(pages: map<nat, Page>, f: Frame, hole: nat) {
    && f.no in pages
    && pages[f.no] == Branch(f.xid, f.keys, Nos(f.left) + [hole] + Nos(f.right))
    && StoredAll(pages, f.left)
    && StoredAll(pages, f.right)
  }

  ghost predicate StoredPath(pages: map<nat, Page>, fs: seq<Frame>, hole: nat)
    decreases |fs|
  {
    fs == [] || (StoredFrame(pages, fs[0], hole) && StoredPath(pages, fs[1..], fs[0].no))
  }

  /** Plugging keeps the entries to both sides in place. */
  lemma {:induction false} FlattenNode(f: Frame, t: Tree)
    ensures Flatten(PlugNode(f, t)) == FlattenAll(f.left) + Flatten(t) + FlattenAll(f.right)
  {
    FlattenAppend(f.left + [t], f.right);
    FlattenAppend(f.left, [t]);
    assert FlattenAll([t]) == Flatten(t);
  }

  lemma {:induction false} FlattenPlug(fs: seq<Frame>, t: Tree)
    ensures Flatten(Plug(fs, t)) == Before(fs) + Flatten(t) + After(fs)
    decreases |fs|
  {
    hide Flatten;
    hide FlattenAll;
    hide PlugNode;
    if fs != [] {
      FlattenPlug(fs[1..], PlugNode(fs[0], t));
      FlattenNode(fs[0], t);
    }
  }

  lemma {:induction false} Regroup(n: multiset<nat>, l: multiset<nat>, r: multiset<nat>, t: multiset<nat>, p: multiset<nat>)
    ensures p + (n + (l + t + r)) == (n + l + r) + p + t
  {
  }

  lemma {:induction false} BagPlug(fs: seq<Frame>, t: Tree)
    ensures Bag(Plug(fs, t)) == PathBag(fs) + Bag(t)
    decreases |fs|
  {
    if fs != [] {
      var f := fs[0];
      BagPlug(fs[1..], PlugNode(f, t));
      BagAppend(f.left + [t], f.right);
      BagAppend(f.left, [t]);
      assert BagAll([t]) == Bag(t);
      Regroup(multiset{f.no}, BagAll(f.left), BagAll(f.right), Bag(t), PathBag(fs[1..]));
    }
  }

  lemma {:induction false} PlugNodeSound(f: Frame, t: Tree, h: nat, lo: int, hi: int, o: Orders)
    requires SoundFrame(f, 1, h, lo, hi, o)
    requires Sound(t, h, Low(f.keys, lo, |f.left|), High(f.keys, hi, |f.left|), o)
    ensures Sound(PlugNode(f, t), h + 1, lo, hi, o)
  {
    var n := PlugNode(f, t);
    forall i | 0 <= i < |n.kids|
      ensures Sound(n.kids[i], h, Low(n.keys, lo, i), High(n.keys, hi, i), o)
    {
      if i < |f.left| {
        assert n.kids[i] == f.left[i];
        assert 0 + i == i;
      } else if i > |f.left| {
        var j := i - |f.left| - 1;
        assert n.kids[i] == f.right[j];
        assert |f.left| + 1 + j == i;
      }
    }
  }

  lemma {:induction false} SoundPlug(fs: seq<Frame>, t: Tree, h: nat, o: Orders)
    requires SoundPath(fs, h, o)
    requires Sound(t, h, PathLow(fs), PathHigh(fs), o)
    ensures Sound(Plug(fs, t), h + |fs|, 0, KEY_MAX, o)
    decreases |fs|
  {
    if fs != [] {
      PlugNodeSound(fs[0], t, h, PathLow(fs[1..]), PathHigh(fs[1..]), o);
      SoundPlug(fs[1..], PlugNode(fs[0], t), h + 1, o);
    }
  }

  lemma {:induction false} StoredPlug(pages: map<nat, Page>, fs: seq<Frame>, t: Tree)
    requires StoredPath(pages, fs, t.no) && Stored(pages, t)
    ensures Stored(pages, Plug(fs, t))
    decreases |fs|
  {
    if fs != [] {
      var n := PlugNode(fs[0], t);
      assert Nos(n.kids) == Nos(fs[0].left) + [t.no] + Nos(fs[0].right);
      forall i | 0 <= i < |n.kids| ensures Stored(pages, n.kids[i]) {
        if i < |fs[0].left| {
          assert n.kids[i] == fs[0].left[i];
        } else if i > |fs[0].left| {
          assert n.kids[i] == fs[0].right[i - |fs[0].left| - 1];
        }
      }
      StoredPlug(pages, fs[1..], n);
    }
  }

  lemma {:induction false} StoredPathKept(a: map<nat, Page>, b: map<nat, Page>, fs: seq<Frame>, hole: nat)
    requires StoredPath(a, fs, hole) && Agree(a, b, PathBag(fs))
    ensures StoredPath(b, fs, hole)
    decreases |fs|
  {
    if fs != [] {
      StoredAllKept(a, b, fs[0].left);
      StoredAllKept(a, b, fs[0].right);
      StoredPathKept(a, b, fs[1..], fs[0].no);
    }
  }

  /** Walking down into child `i` turns a branch into one more frame. */
  function Open(t: Tree, i: nat): Frame
    requires t.TBranch? && i < |t.kids|
  {
    Frame(t.no, t.xid, t.keys, t.kids[..i], t.kids[i + 1..])
  }

  lemma {:induction false} OpenPlug(fs: seq<Frame>, t: Tree, i: nat)
    requires t.TBranch? && i < |t.kids|
    ensures Plug([Open(t, i)] + fs, t.kids[i]) == Plug(fs, t)
  {
    assert ([Open(t, i)] + fs)[1..] == fs;
    assert t.kids[..i] + [t.kids[i]] + t.kids[i + 1..] == t.kids;
  }

  lemma {:induction false} OpenSound(fs: seq<Frame>, t: Tree, i: nat, h: nat, o: Orders)
    requires t.TBranch? && i < |t.kids|
    requires SoundPath(fs, h, o) && Sound(t, h, PathLow(fs), PathHigh(fs), o)
    ensures h > 0 && SoundPath([Open(t, i)] + fs, h - 1, o)
    ensures Sound(t.kids[i], h - 1, PathLow([Open(t, i)] + fs), PathHigh([Open(t, i)] + fs), o)
  {
    var gs := [Open(t, i)] + fs;
    assert gs[1..] == fs;
    assert forall f | f in gs :: f == gs[0] || f in fs;
    assert gs[0].left == t.kids[..i];
  }

  lemma {:induction false} OpenStored(pages: map<nat, Page>, fs: seq<Frame>, t: Tree, i: nat)
    requires t.TBranch? && i < |t.kids|
    requires StoredPath(pages, fs, t.no) && Stored(pages, t)
    ensures StoredPath(pages, [Open(t, i)] + fs, t.kids[i].no) && Stored(pages, t.kids[i])
  {
    var gs := [Open(t, i)] + fs;
    assert gs[1..] == fs;
    assert Nos(t.kids) == Nos(t.kids[..i]) + [t.kids[i].no] + Nos(t.kids[i + 1..]);
  }
}
