/** How a path of branches takes in a split child (lib/bpt.c, insert_into_parent): the pair frame that
    holds both halves side by side, branch splitting, and the page growth that `nsplits` predicts. */
module BptGrow {
  import opened BptTree

  predicate FullFrame(f: Frame, o: Orders) {
    |f.keys| == o.branch - 1
  }

  /** Pages added above a node that splits: one per full branch, and a new root if all are full. */
  function Growth(fs: seq<Frame>, o: Orders): nat {
    if fs == [] then 1 else if FullFrame(fs[0], o) then 1 + Growth(fs[1..], o) else 0
  }

  // ---- frames copied for a transaction

  /** `gs` is `fs` with every frame that `xid` does not own moved to a page that it does. */
  predicate Copied(fs: seq<Frame>, gs: seq<Frame>, xid: nat) {
    && |fs| == |gs|
    && (fs == [] ||
        (&& gs[0] == fs[0].(no := gs[0].no, xid := xid)
         && (fs[0].xid == xid ==> gs[0] == fs[0])
         && Copied(fs[1..], gs[1..], xid)))
  }

  lemma {:induction false} CopiedSame(fs: seq<Frame>, gs: seq<Frame>, xid: nat)
    requires Copied(fs, gs, xid)
    ensures Before(gs) == Before(fs) && After(gs) == After(fs)
    ensures |PathBag(gs)| == |PathBag(fs)|
    ensures forall f | f in gs :: f.xid == xid
  {
    if fs != [] {
      CopiedSame(fs[1..], gs[1..], xid);
      assert forall f | f in gs :: f == gs[0] || f in gs[1..];
    }
  }

  lemma {:induction false} CopiedSound(fs: seq<Frame>, gs: seq<Frame>, xid: nat, h: nat, o: Orders)
    requires Copied(fs, gs, xid) && SoundPath(fs, h, o)
    ensures SoundPath(gs, h, o) && PathLow(gs) == PathLow(fs) && PathHigh(gs) == PathHigh(fs)
    decreases |fs|
  {
    if fs != [] {
      CopiedSound(fs[1..], gs[1..], xid, h + 1, o);
      assert forall f | f in gs :: f == gs[0] || f in gs[1..];
    }
  }

  lemma {:induction false} CopiedOwned(fs: seq<Frame>, gs: seq<Frame>, xid: nat)
    requires Copied(fs, gs, xid)
    requires forall f | f in fs :: f.xid == xid
    ensures gs == fs
  {
    if fs != [] {
      assert fs[0] in fs;
      assert forall f | f in fs[1..] :: f in fs;
      CopiedOwned(fs[1..], gs[1..], xid);
      assert fs == [fs[0]] + fs[1..] && gs == [gs[0]] + gs[1..];
    }
  }

  // ---- pair frames: two adjacent holes for the halves of a split child

  ghost predicate StoredPair(pages: map<nat, Page>, f: Frame, l: nat, r: nat) {
    && f.no in pages
    && pages[f.no] == Branch(f.xid, f.keys, Nos(f.left) + [l, r] + Nos(f.right))
    && StoredAll(pages, f.left)
    && StoredAll(pages, f.right)
  }

  /** The holes of `pf` cover exactly [lo, hi], cut at `key`. */
  predicate SoundPair(pf: Frame, ups: seq<Frame>, h: nat, o: Orders, lo: int, key: nat, hi: int) {
    && SoundPath(ups, h + 1, o)
    && SoundFrame(pf, 2, h, PathLow(ups), PathHigh(ups), o)
    && pf.keys[|pf.left|] == key
    && Low(pf.keys, PathLow(ups), |pf.left|) == lo
    && High(pf.keys, PathHigh(ups), |pf.left| + 1) == hi
  }

  /** The frame of the left half once the right half is in place, and the other way round. */
  function LeftHole(pf: Frame, r: Tree): Frame {
    pf.(right := [r] + pf.right)
  }

  function RightHole(pf: Frame, l: Tree): Frame {
    pf.(left := pf.left + [l])
  }

  lemma {:induction false} LeftHoleSound(pf: Frame, ups: seq<Frame>, h: nat, o: Orders, lo: int, key: nat, hi: int, r: Tree)
    requires SoundPair(pf, ups, h, o, lo, key, hi) && Sound(r, h, key, hi, o)
    ensures var fs := [LeftHole(pf, r)] + ups;
            SoundPath(fs, h, o) && PathLow(fs) == lo && PathHigh(fs) == key - 1
  {
    var fs := [LeftHole(pf, r)] + ups;
    assert fs[1..] == ups;
    assert forall f | f in fs :: f == fs[0] || f in ups;
    var f := fs[0];
    forall i | 0 <= i < |f.right|
      ensures Sound(f.right[i], h, Low(f.keys, PathLow(ups), |f.left| + 1 + i),
                    High(f.keys, PathHigh(ups), |f.left| + 1 + i), o)
    {
      if i > 0 {
        assert f.right[i] == pf.right[i - 1];
        assert |f.left| + 1 + i == |pf.left| + 2 + (i - 1);
      }
    }
  }

  lemma {:induction false} RightHoleSound(pf: Frame, ups: seq<Frame>, h: nat, o: Orders, lo: int, key: nat, hi: int, l: Tree)
    requires SoundPair(pf, ups, h, o, lo, key, hi) && Sound(l, h, lo, key - 1, o)
    ensures var fs := [RightHole(pf, l)] + ups;
            SoundPath(fs, h, o) && PathLow(fs) == key && PathHigh(fs) == hi
  {
    var fs := [RightHole(pf, l)] + ups;
    assert fs[1..] == ups;
    assert forall f | f in fs :: f == fs[0] || f in ups;
    var f := fs[0];
    forall i | 0 <= i < |f.left|
      ensures Sound(f.left[i], h, Low(f.keys, PathLow(ups), i), High(f.keys, PathHigh(ups), i), o)
    {
      if i < |pf.left| {
        assert f.left[i] == pf.left[i];
      }
    }
    forall i | 0 <= i < |f.right|
      ensures Sound(f.right[i], h, Low(f.keys, PathLow(ups), |f.left| + 1 + i),
                    High(f.keys, PathHigh(ups), |f.left| + 1 + i), o)
    {
      assert |f.left| + 1 + i == |pf.left| + 2 + i;
    }
  }

  lemma {:induction false} HoleEntries(pf: Frame, ups: seq<Frame>, t: Tree)
    ensures Before([LeftHole(pf, t)] + ups) == Before(ups) + FlattenAll(pf.left)
    ensures After([LeftHole(pf, t)] + ups) == Flatten(t) + FlattenAll(pf.right) + After(ups)
    ensures Before([RightHole(pf, t)] + ups) == Before(ups) + FlattenAll(pf.left) + Flatten(t)
    ensures After([RightHole(pf, t)] + ups) == FlattenAll(pf.right) + After(ups)
  {
    assert ([LeftHole(pf, t)] + ups)[1..] == ups;
    assert ([RightHole(pf, t)] + ups)[1..] == ups;
    FlattenAppend([t], pf.right);
    FlattenAppend(pf.left, [t]);
    assert FlattenAll([t]) == Flatten(t);
  }

  lemma {:induction false} LeftHoleBag(pf: Frame, ups: seq<Frame>, t: Tree)
    ensures PathBag([LeftHole(pf, t)] + ups) == FrameBag(pf) + Bag(t) + PathBag(ups)
  {
    assert ([LeftHole(pf, t)] + ups)[1..] == ups;
    BagAppend([t], pf.right);
    assert BagAll([t]) == Bag(t);
    assert FrameBag(LeftHole(pf, t)) == FrameBag(pf) + Bag(t);
  }

  lemma {:induction false} RightHoleBag(pf: Frame, ups: seq<Frame>, t: Tree)
    ensures PathBag([RightHole(pf, t)] + ups) == FrameBag(pf) + Bag(t) + PathBag(ups)
  {
    assert ([RightHole(pf, t)] + ups)[1..] == ups;
    BagAppend(pf.left, [t]);
    assert BagAll([t]) == Bag(t);
    assert FrameBag(RightHole(pf, t)) == FrameBag(pf) + Bag(t);
  }

  lemma {:induction false} HoleStored(pages: map<nat, Page>, pf: Frame, ups: seq<Frame>, l: nat, r: nat, t: Tree)
    requires StoredPair(pages, pf, l, r) && StoredPath(pages, ups, pf.no) && Stored(pages, t)
    ensures t.no == r ==> StoredPath(pages, [LeftHole(pf, t)] + ups, l)
    ensures t.no == l ==> StoredPath(pages, [RightHole(pf, t)] + ups, r)
  {
    assert ([LeftHole(pf, t)] + ups)[1..] == ups;
    assert ([RightHole(pf, t)] + ups)[1..] == ups;
    assert Nos([t] + pf.right) == [t.no] + Nos(pf.right);
    assert Nos(pf.left + [t]) == Nos(pf.left) + [t.no];
    assert [l, r] == [l] + [r];
    assert t.no == r ==> Nos(pf.left) + [l, r] + Nos(pf.right) == Nos(pf.left) + [l] + Nos([t] + pf.right);
    assert t.no == l ==> Nos(pf.left) + [l, r] + Nos(pf.right) == Nos(pf.left + [t]) + [r] + Nos(pf.right);
  }

  // ---- a branch with room

  function InsertKey(keys: seq<nat>, n: nat, key: nat): seq<nat>
    requires n <= |keys|
  {
    keys[..n] + [key] + keys[n..]
  }

  lemma {:induction false} InsertKeySeparates(keys: seq<nat>, n: nat, key: nat, lo: int, hi: int)
    requires n <= |keys| && Separators(keys, lo, hi)
    requires Low(keys, lo, n) < key <= High(keys, hi, n)
    ensures Separators(InsertKey(keys, n, key), lo, hi)
  {
    var ks := InsertKey(keys, n, key);
    assert forall i | 0 <= i < |ks| :: ks[i] == if i < n then keys[i] else if i == n then key else keys[i - 1];
    assert n > 0 ==> Low(keys, lo, n) == keys[n - 1];
  }

  lemma {:induction false} InsertKeyBounds(keys: seq<nat>, n: nat, key: nat, lo: int, hi: int, i: nat)
    requires n <= |keys| && i <= |keys| + 1
    ensures var ks := InsertKey(keys, n, key);
            && Low(ks, lo, i) == (if i <= n then Low(keys, lo, i) else if i == n + 1 then key else Low(keys, lo, i - 1))
            && High(ks, hi, i) == (if i < n then High(keys, hi, i) else if i == n then key - 1 else High(keys, hi, i - 1))
  {
  }

  /** `f` with a slot for one more child, cut off from the hole by `key`. */
  function Widened(f: Frame, key: nat): Frame
    requires |f.left| <= |f.keys|
  {
    f.(keys := InsertKey(f.keys, |f.left|, key))
  }

  lemma {:induction false} WidenedFrame(f: Frame, h: nat, lo: int, hi: int, o: Orders, key: nat)
    requires SoundFrame(f, 1, h, lo, hi, o) && |f.keys| + 1 < o.branch
    requires Low(f.keys, lo, |f.left|) < key <= High(f.keys, hi, |f.left|)
    ensures var w := Widened(f, key);
            && SoundFrame(w, 2, h, lo, hi, o)
            && w.keys[|w.left|] == key
            && Low(w.keys, lo, |w.left|) == Low(f.keys, lo, |f.left|)
            && High(w.keys, hi, |w.left| + 1) == High(f.keys, hi, |f.left|)
  {
    hide Sound;
    hide SoundSide;
    var n, w := |f.left|, Widened(f, key);
    InsertKeySeparates(f.keys, n, key, lo, hi);
    forall i | 0 <= i <= |w.keys|
      ensures i <= n ==> Low(w.keys, lo, i) == Low(f.keys, lo, i)
      ensures i < n ==> High(w.keys, hi, i) == High(f.keys, hi, i)
      ensures i > n + 1 ==> Low(w.keys, lo, i) == Low(f.keys, lo, i - 1)
      ensures i > n ==> High(w.keys, hi, i) == High(f.keys, hi, i - 1)
    {
      InsertKeyBounds(f.keys, n, key, lo, hi, i);
    }
    SideMoved(f.left, h, o, f.keys, 0, lo, hi, w.keys, 0, lo, hi);
    SideMoved(f.right, h, o, f.keys, n + 1, lo, hi, w.keys, n + 2, lo, hi);
    MakeFrame(w, 2, h, lo, hi, o);
  }

  // ---- a full branch: cut at the middle; the hole stays in one half, the other half is a tree

  function Middle(keys: seq<nat>): nat {
    (|keys| + 1) / 2
  }

  /** The separator that moves up. */
  function Pivot(keys: seq<nat>): int
    requires keys != []
  {
    keys[Middle(keys) - 1]
  }

  predicate Cuttable(f: Frame, h: nat, lo: int, hi: int, o: Orders) {
    o.branch >= 4 && FullFrame(f, o) && SoundFrame(f, 1, h, lo, hi, o)
  }

  function LeftPart(f: Frame, no: nat, xid: nat): Frame
    requires |f.left| < Middle(f.keys) && |f.left| + |f.right| == |f.keys|
  {
    var m := Middle(f.keys);
    Frame(no, xid, f.keys[..m - 1], f.left, f.right[..m - 1 - |f.left|])
  }

  function LeftRest(f: Frame, no: nat, xid: nat): Tree
    requires |f.left| < Middle(f.keys) && |f.left| + |f.right| == |f.keys|
  {
    var m := Middle(f.keys);
    TBranch(no, xid, f.keys[m..], f.right[m - 1 - |f.left|..])
  }

  function RightPart(f: Frame, no: nat, xid: nat): Frame
    requires Middle(f.keys) <= |f.left|
  {
    var m := Middle(f.keys);
    Frame(no, xid, f.keys[m..], f.left[m..], f.right)
  }

  function RightRest(f: Frame, no: nat, xid: nat): Tree
    requires 1 <= Middle(f.keys) <= |f.left|
  {
    var m := Middle(f.keys);
    TBranch(no, xid, f.keys[..m - 1], f.left[..m])
  }

  /** Which half takes the new child is decided by key order, and agrees with its position. */
  lemma {:induction false} CutSide(f: Frame, h: nat, lo: int, hi: int, o: Orders, key: nat)
    requires SoundFrame(f, 1, h, lo, hi, o)
    requires Low(f.keys, lo, |f.left|) <= key <= High(f.keys, hi, |f.left|)
    ensures Middle(f.keys) >= 1
    ensures key < Pivot(f.keys) <==> |f.left| < Middle(f.keys)
  {
  }

  lemma {:induction false} PrefixBounds(keys: seq<nat>, m: nat, lo: int, hi: int, j: nat)
    requires j <= m < |keys|
    ensures Low(keys[..m], lo, j) == Low(keys, lo, j)
    ensures High(keys[..m], keys[m] as int - 1, j) == High(keys, hi, j)
  {
  }

  lemma {:induction false} PrefixSeparates(keys: seq<nat>, m: nat, lo: int, hi: int)
    requires Separators(keys, lo, hi) && m < |keys|
    ensures Separators(keys[..m], lo, keys[m] as int - 1)
  {
  }

  lemma {:induction false} PrefixSide(ts: seq<Tree>, keys: seq<nat>, base: nat, m: nat, n: nat, h: nat, lo: int, hi: int, o: Orders)
    requires SoundSide(ts, keys, base, h, lo, hi, o) && m < |keys| && n <= |ts| && base + n <= m + 1
    ensures SoundSide(ts[..n], keys[..m], base, h, lo, keys[m] as int - 1, o)
  {
    forall i | 0 <= i < n
      ensures Sound(ts[..n][i], h, Low(keys[..m], lo, base + i), High(keys[..m], keys[m] as int - 1, base + i), o)
    {
      PrefixBounds(keys, m, lo, hi, base + i);
    }
  }

  lemma {:induction false} LeftPartSound(f: Frame, h: nat, lo: int, hi: int, o: Orders, no: nat, xid: nat)
    requires Cuttable(f, h, lo, hi, o) && |f.left| < Middle(f.keys)
    ensures var part, sep := LeftPart(f, no, xid), Pivot(f.keys);
            && SoundFrame(part, 1, h, lo, sep - 1, o)
            && |part.keys| + 1 < o.branch
            && Low(part.keys, lo, |part.left|) == Low(f.keys, lo, |f.left|)
            && High(part.keys, sep - 1, |part.left|) == High(f.keys, hi, |f.left|)
  {
    hide Sound;
    hide SoundSide;
    var m, n := Middle(f.keys), |f.left|;
    PrefixSeparates(f.keys, m - 1, lo, hi);
    PrefixSide(f.left, f.keys, 0, m - 1, n, h, lo, hi, o);
    assert f.left[..n] == f.left;
    PrefixSide(f.right, f.keys, n + 1, m - 1, m - 1 - n, h, lo, hi, o);
    PrefixBounds(f.keys, m - 1, lo, hi, n);
    MakeFrame(LeftPart(f, no, xid), 1, h, lo, Pivot(f.keys) - 1, o);
  }

  lemma {:induction false} LeftRestSound(f: Frame, h: nat, lo: int, hi: int, o: Orders, no: nat, xid: nat)
    requires Cuttable(f, h, lo, hi, o) && |f.left| < Middle(f.keys)
    ensures Sound(LeftRest(f, no, xid), h + 1, Pivot(f.keys), hi, o)
  {
    var rest, n, m, sep := LeftRest(f, no, xid), |f.left|, Middle(f.keys), Pivot(f.keys);
    forall i | 0 <= i < |rest.kids|
      ensures Sound(rest.kids[i], h, Low(rest.keys, sep, i), High(rest.keys, hi, i), o)
    {
      var j := m - 1 - n + i;
      assert rest.kids[i] == f.right[j];
      assert Low(rest.keys, sep, i) == Low(f.keys, lo, n + 1 + j);
      assert High(rest.keys, hi, i) == High(f.keys, hi, n + 1 + j);
    }
  }

  lemma {:induction false} SuffixBounds(keys: seq<nat>, m: nat, lo: int, hi: int, j: nat)
    requires 1 <= m <= j <= |keys|
    ensures Low(keys[m..], keys[m - 1], j - m) == Low(keys, lo, j)
    ensures High(keys[m..], hi, j - m) == High(keys, hi, j)
  {
  }

  lemma {:induction false} SuffixSide(ts: seq<Tree>, keys: seq<nat>, base: nat, m: nat, h: nat, lo: int, hi: int, o: Orders)
    requires SoundSide(ts, keys, base, h, lo, hi, o) && 1 <= m <= base && m <= |keys|
    ensures SoundSide(ts, keys[m..], base - m, h, keys[m - 1], hi, o)
  {
    forall i | 0 <= i < |ts|
      ensures Sound(ts[i], h, Low(keys[m..], keys[m - 1], base - m + i), High(keys[m..], hi, base - m + i), o)
    {
      SuffixBounds(keys, m, lo, hi, base + i);
      assert base + i - m == base - m + i;
    }
  }

  lemma {:induction false} SideDrop(ts: seq<Tree>, keys: seq<nat>, m: nat, h: nat, lo: int, hi: int, o: Orders)
    requires SoundSide(ts, keys, 0, h, lo, hi, o) && m <= |ts|
    ensures SoundSide(ts[m..], keys, m, h, lo, hi, o)
  {
    forall i | 0 <= i < |ts| - m
      ensures Sound(ts[m..][i], h, Low(keys, lo, m + i), High(keys, hi, m + i), o)
    {
      assert ts[m..][i] == ts[m + i];
      assert 0 + (m + i) == m + i;
    }
  }

  lemma {:induction false} RightPartSound(f: Frame, h: nat, lo: int, hi: int, o: Orders, no: nat, xid: nat)
    requires Cuttable(f, h, lo, hi, o) && Middle(f.keys) <= |f.left|
    ensures var part, sep := RightPart(f, no, xid), Pivot(f.keys);
            && SoundFrame(part, 1, h, sep, hi, o)
            && |part.keys| + 1 < o.branch
            && Low(part.keys, sep, |part.left|) == Low(f.keys, lo, |f.left|)
            && High(part.keys, hi, |part.left|) == High(f.keys, hi, |f.left|)
  {
    hide Sound;
    hide SoundSide;
    var m := Middle(f.keys);
    SideDrop(f.left, f.keys, m, h, lo, hi, o);
    SuffixSide(f.left[m..], f.keys, m, m, h, lo, hi, o);
    SuffixSide(f.right, f.keys, |f.left| + 1, m, h, lo, hi, o);
    SuffixBounds(f.keys, Middle(f.keys), lo, hi, |f.left|);
    MakeFrame(RightPart(f, no, xid), 1, h, Pivot(f.keys), hi, o);
  }

  lemma {:induction false} RightRestSound(f: Frame, h: nat, lo: int, hi: int, o: Orders, no: nat, xid: nat)
    requires Cuttable(f, h, lo, hi, o) && Middle(f.keys) <= |f.left|
    ensures Sound(RightRest(f, no, xid), h + 1, lo, Pivot(f.keys) - 1, o)
  {
    var rest, sep := RightRest(f, no, xid), Pivot(f.keys);
    forall i | 0 <= i < |rest.kids|
      ensures Sound(rest.kids[i], h, Low(rest.keys, lo, i), High(rest.keys, sep - 1, i), o)
    {
      assert rest.kids[i] == f.left[i];
      assert Low(rest.keys, lo, i) == Low(f.keys, lo, i);
      assert High(rest.keys, sep - 1, i) == High(f.keys, hi, i);
    }
  }

  // Cutting a frame keeps its entries in order and its pages, but for the branch's own two.

  lemma {:induction false} LeftCutEntries(f: Frame, a: nat, b: nat, xid: nat)
    requires |f.left| < Middle(f.keys) && |f.left| + |f.right| == |f.keys|
    ensures FlattenAll(LeftPart(f, a, xid).right) + Flatten(LeftRest(f, b, xid)) == FlattenAll(f.right)
  {
    var c := Middle(f.keys) - 1 - |f.left|;
    FlattenAppend(f.right[..c], f.right[c..]);
    assert f.right[..c] + f.right[c..] == f.right;
  }

  lemma {:induction false} LeftCutBag(f: Frame, a: nat, b: nat, xid: nat)
    requires |f.left| < Middle(f.keys) && |f.left| + |f.right| == |f.keys|
    ensures FrameBag(LeftPart(f, a, xid)) + Bag(LeftRest(f, b, xid)) + multiset{f.no}
         == FrameBag(f) + multiset{a} + multiset{b}
  {
    var c := Middle(f.keys) - 1 - |f.left|;
    BagAppend(f.right[..c], f.right[c..]);
    assert f.right[..c] + f.right[c..] == f.right;
    CutBag(multiset{a}, multiset{b}, multiset{f.no}, BagAll(f.left), BagAll(f.right[..c]), BagAll(f.right[c..]));
  }

  lemma {:induction false} RightCutEntries(f: Frame, a: nat, b: nat, xid: nat)
    requires 1 <= Middle(f.keys) <= |f.left|
    ensures Flatten(RightRest(f, a, xid)) + FlattenAll(RightPart(f, b, xid).left) == FlattenAll(f.left)
  {
    var c := Middle(f.keys);
    FlattenAppend(f.left[..c], f.left[c..]);
    assert f.left[..c] + f.left[c..] == f.left;
  }

  lemma {:induction false} RightCutBag(f: Frame, a: nat, b: nat, xid: nat)
    requires 1 <= Middle(f.keys) <= |f.left|
    ensures FrameBag(RightPart(f, b, xid)) + Bag(RightRest(f, a, xid)) + multiset{f.no}
         == FrameBag(f) + multiset{a} + multiset{b}
  {
    var c := Middle(f.keys);
    BagAppend(f.left[..c], f.left[c..]);
    assert f.left[..c] + f.left[c..] == f.left;
    CutBag(multiset{b}, multiset{a}, multiset{f.no}, BagAll(f.left[c..]), BagAll(f.right), BagAll(f.left[..c]));
  }

  lemma {:induction false} CutBag(a: multiset<nat>, b: multiset<nat>, n: multiset<nat>, x: multiset<nat>, y: multiset<nat>, z: multiset<nat>)
    ensures (a + x + y) + (b + z) + n == (n + x + (y + z)) + a + b
    ensures (a + x + y) + (b + z) + n == (n + (z + x) + y) + b + a
  {
  }
}
