/** The walks of lib/cache.c over the two trees, leaf by leaf: what obj_reserve evicts and where obj_upsert puts an
    entry. Deleting never removes a leaf, and a walk onto a leaf without entries is shown what its first slot
    still holds. */
module SlabWalk {
  import opened Leaves
  import opened Slab

  // ---- the key tree

  /** No two entries name the same block. */
  ghost predicate OneEach(ks: seq<Key>, size: nat)
    requires size > 0
  {
    forall i, j | 0 <= i < j < |ks| :: KeyAt(ks[i], size) != KeyAt(ks[j], size)
  }

  /** The entry that names block `no`, if there is one, is found under `hash`. */
  ghost predicate NamedBy(ks: seq<Key>, hash: nat, no: nat, size: nat)
    requires size > 0
  {
    forall i | 0 <= i < |ks| && KeyAt(ks[i], size) == no :: ks[i].key == hash
  }

  /** That entry is gone, and no other. */
  ghost predicate KeyGone(ks: seq<Key>, r: seq<Key>, no: nat, size: nat)
    requires size > 0
  {
    Sorted(r) && OneEach(r, size) && forall k :: k in r <==> k in ks && KeyAt(k, size) != no
  }

  /** The loop of obj_reserve over the keys of one hash: takes out the entry that names block `no`. */
  method DropKey(kt: seq<Node<Spot>>, order: nat, hash: nat, no: nat, size: nat) returns (t: seq<Node<Spot>>)
    requires size > 0 && TreeOk(kt, order) && OneEach(Flat(kt), size) && NamedBy(Flat(kt), hash, no, size)
    ensures TreeOk(t, order) && KeyGone(Flat(kt), Flat(t), no, size)
  {
    hide KeyAt;
    hide Flat;
    hide TreeOk;
    hide KeyGone;
    hide OneEach;
    hide NamedBy;
    hide Place;
    hide Removed;
    FlatSorted(kt, order);
    if kt == [] {
      NoneThere(size, no);
      return kt;
    }
    FirstLow(kt, order);
    PlaceIn(kt, hash);
    var p := Place(kt, hash);
    var items := kt[p].items;
    var q := Lower(items, hash);
    ghost var first := q;
    while q < |items| && items[q].key == hash
      invariant first <= q <= |items| && forall j | first <= j < q :: items[j].key == hash && KeyAt(items[j], size) != no
    {
      if KeyAt(items[q], size) == no {
        RemovedOk(kt, order, p, q);
        RemovedFlat(kt, p, q);
        KeyRemoved(Flat(kt), |Flat(kt[..p])| + q, no, size);
        return kt[p := Removed(kt[p], q)];
      }
      q := q + 1;
    }
    NoneNamed(kt, order, p, first, q, hash, no, size);
    AllKept(Flat(kt), size, no);
    t := kt;
  }

  lemma {:induction false} KeyRemoved(ks: seq<Key>, i: nat, no: nat, size: nat)
    requires size > 0 && Sorted(ks) && OneEach(ks, size) && i < |ks| && KeyAt(ks[i], size) == no
    ensures KeyGone(ks, ks[..i] + ks[i + 1..], no, size)
  {
    DroppedKey(ks, i, size);
  }

  lemma {:induction false} NoneNamed(kt: seq<Node<Spot>>, order: nat, p: nat, q: nat, q': nat, hash: nat, no: nat, size: nat)
    requires size > 0 && TreeOk(kt, order) && p < |kt| && InLeaf(kt, p, hash) && q == Lower(kt[p].items, hash) && q <= q' <= |kt[p].items|
    requires forall j | q <= j < q' :: kt[p].items[j].key == hash && KeyAt(kt[p].items[j], size) != no
    requires q' < |kt[p].items| ==> kt[p].items[q'].key != hash
    requires NamedBy(Flat(kt), hash, no, size)
    ensures forall i | 0 <= i < |Flat(kt)| :: KeyAt(Flat(kt)[i], size) != no
  {
    hide KeyAt;
    hide Flat;
    hide TreeOk;
    hide Lower;
    var items := kt[p].items;
    LeafSorted(kt, order, p);
    assert q < q' < |items| ==> items[q].key <= items[q'].key;
    RunWhole(items, hash, q, q' - q);
    forall i | 0 <= i < |Flat(kt)| && Flat(kt)[i].key == hash ensures KeyAt(Flat(kt)[i], size) != no {
      EqualInLeaf(kt, order, p, hash, i);
    }
  }

  lemma {:induction false} FirstLow<V>(ls: seq<Node<V>>, order: nat)
    requires TreeOk(ls, order) && ls != []
    ensures ls[0].low == 0
  {
  }

  lemma {:induction false} NoneThere(size: nat, no: nat)
    requires size > 0
    ensures KeyGone(Flat<Spot>([]), Flat<Spot>([]), no, size)
  {
  }

  lemma {:induction false} AllKept(ks: seq<Key>, size: nat, no: nat)
    requires size > 0 && Sorted(ks) && OneEach(ks, size) && forall i | 0 <= i < |ks| :: KeyAt(ks[i], size) != no
    ensures KeyGone(ks, ks, no, size)
  {
    forall k | k in ks ensures KeyAt(k, size) != no {
      var i :| 0 <= i < |ks| && ks[i] == k;
    }
  }

  // ---- the walk over the block tree

  /** A leaf whose entries all overlap the region. */
  predicate Gone(l: Node<Extent>, start: nat, end: nat) {
    l.items != [] && AllOverlap(l.items, start, end)
  }

  /** A leaf without entries whose first slot seems to overlap it. */
  predicate Trap(l: Node<Extent>, start: nat, end: nat) {
    l.items == [] && Overlap(l.stale.key, l.stale.val.count, start, end)
  }

  /** A leaf without its entries from place `q` on, evicted one by one. */
  function Rest(l: Node<Extent>, q: nat): Node<Extent>
    requires q <= |l.items|
  {
    Node(l.low, l.items[..q], if q == 0 && l.items != [] then l.items[|l.items| - 1] else l.stale)
  }

  /** The leaves a walk from place `q` of leaf `p` comes to: those to the right, then the first. */
  function Ahead(ls: seq<Node<Extent>>, p: nat, q: nat): seq<Node<Extent>>
    requires p < |ls| && q <= |ls[p].items|
  {
    ls[p + 1..] + [if p > 0 then ls[0] else Rest(ls[0], q)]
  }

  /** It evicts leaf after leaf and is led onto one without entries. */
  predicate Trapped(row: seq<Node<Extent>>, start: nat, end: nat) {
    row != [] && (Trap(row[0], start, end) || (Gone(row[0], start, end) && Trapped(row[1..], start, end)))
  }

  predicate Stuck(ls: seq<Node<Extent>>, start: nat, end: nat)
    requires ls != []
  {
    var p := Place(ls, start);
    var q := Lower(ls[p].items, start);
    AllOverlap(ls[p].items[q..], start, end) && Trapped(Ahead(ls, p, q), start, end)
  }

  /** That is: some leaf ahead is such a leaf, and all entries up to it overlap. */
  lemma {:induction false} TrappedAt(row: seq<Node<Extent>>, start: nat, end: nat)
    ensures Trapped(row, start, end) <==>
            exists m | 0 <= m < |row| :: Trap(row[m], start, end) && forall l | 0 <= l < m :: Gone(row[l], start, end)
    decreases |row|
  {
    hide Trap;
    hide Gone;
    if row != [] {
      TrappedAt(row[1..], start, end);
      if Trapped(row, start, end) && !Trap(row[0], start, end) {
        var m :| 0 <= m < |row[1..]| && Trap(row[1..][m], start, end) && forall l | 0 <= l < m :: Gone(row[1..][l], start, end);
        assert Trap(row[m + 1], start, end) && forall l | 0 <= l < m + 1 :: Gone(row[l], start, end);
      }
      if m :| 0 <= m < |row| && Trap(row[m], start, end) && forall l | 0 <= l < m :: Gone(row[l], start, end) {
        if m > 0 {
          assert Gone(row[0], start, end) && Trap(row[1..][m - 1], start, end);
          assert forall l | 0 <= l < m - 1 :: Gone(row[1..][l], start, end) by {
            assert forall l | 0 <= l < m - 1 :: row[1..][l] == row[l + 1];
          }
        }
      }
    }
  }

  /** `l` is `l0` with `e` entries from place `y` on evicted. */
  ghost predicate Part(l0: Node<Extent>, l: Node<Extent>, y: nat, e: nat, start: nat, end: nat) {
    && y + e <= |l0.items| && l.low == l0.low && l.items == l0.items[..y] + l0.items[y + e..]
    && AllOverlap(l0.items[y..y + e], start, end)
    && (l.items != [] || e == 0 ==> l.stale == l0.stale)
    && (l.items == [] && e > 0 ==> l.stale == l0.items[|l0.items| - 1])
  }

  /** The walk that began at place `q` of leaf `p` is at place `y` of leaf `x`, `around` once it has come to the
      first leaf again. */
  ghost predicate Walking(ls: seq<Node<Extent>>, p: nat, q: nat, start: nat, end: nat,
                          bt: seq<Node<Extent>>, x: nat, y: nat, around: bool, e: nat) {
    && p < |ls| == |bt| && q <= |ls[p].items| && x < |ls| && (forall z | 0 <= z < |ls| :: bt[z].low == ls[z].low)
    && (around || x > p ==> AllOverlap(ls[p].items[q..], start, end))
    && (p > 0 || around || x > p ==> bt[0] == if p > 0 then ls[0] else Rest(ls[0], q))
    && (if around then x == 0 && y == 0 && (Trapped(Ahead(ls, p, q), start, end) <==> Trap(bt[0], start, end))
        else
          && p <= x && y == (if x == p then q else 0) && Part(ls[x], bt[x], y, e, start, end)
          && (forall z | x < z < |ls| :: bt[z] == ls[z])
          && (x > p ==> (Trapped(Ahead(ls, p, q), start, end) <==> Trapped(Ahead(ls, p, q)[x - p - 1..], start, end))))
  }

  lemma {:induction false} PartNone(l: Node<Extent>, y: nat, start: nat, end: nat)
    requires y <= |l.items|
    ensures Part(l, l, y, 0, start, end)
  {
  }

  lemma {:induction false} PartMore(l0: Node<Extent>, l: Node<Extent>, y: nat, e: nat, start: nat, end: nat)
    requires Part(l0, l, y, e, start, end) && y < |l.items| && Overlap(l.items[y].key, l.items[y].val.count, start, end)
    ensures Part(l0, Removed(l, y), y, e + 1, start, end)
  {
    var a, b := l0.items[y..y + e], l0.items[y..y + e + 1];
    assert l.items[y] == l0.items[y + e];
    assert b == a + [l0.items[y + e]];
    assert l.items[..y] == l0.items[..y] && l.items[y + 1..] == l0.items[y + e + 1..];
  }

  lemma {:induction false} PartAll(l0: Node<Extent>, l: Node<Extent>, y: nat, e: nat, start: nat, end: nat)
    requires Part(l0, l, y, e, start, end) && y == |l.items|
    ensures AllOverlap(l0.items[y..], start, end) && l == Rest(l0, y) && (e > 0 && y == 0 ==> Gone(l0, start, end))
  {
    assert l0.items[y..y + e] == l0.items[y..];
    assert y == 0 ==> l0.items[0..] == l0.items;
  }

  lemma {:induction false} WalkStart(ls: seq<Node<Extent>>, p: nat, q: nat, start: nat, end: nat)
    requires p < |ls| && q <= |ls[p].items|
    ensures Walking(ls, p, q, start, end, ls, p, q, false, 0)
  {
    PartNone(ls[p], q, start, end);
  }

  lemma {:induction false} WalkEvict(ls: seq<Node<Extent>>, p: nat, q: nat, start: nat, end: nat, bt: seq<Node<Extent>>, x: nat, y: nat, e: nat)
    requires Walking(ls, p, q, start, end, bt, x, y, false, e)
    requires y < |bt[x].items| && Overlap(bt[x].items[y].key, bt[x].items[y].val.count, start, end)
    ensures Walking(ls, p, q, start, end, bt[x := Removed(bt[x], y)], x, y, false, e + 1)
  {
    hide Part;
    hide Trapped;
    hide AllOverlap;
    PartMore(ls[x], bt[x], y, e, start, end);
  }

  /** The place right of the last of a leaf. */
  function Onward(x: nat, n: nat): (nat, bool) {
    if x + 1 < n then (x + 1, false) else (0, true)
  }

  lemma {:induction false} WalkMove(ls: seq<Node<Extent>>, p: nat, q: nat, start: nat, end: nat, bt: seq<Node<Extent>>, x: nat, y: nat, e: nat)
    requires Walking(ls, p, q, start, end, bt, x, y, false, e) && y == |bt[x].items| && (x > p ==> e > 0)
    ensures var (x', around) := Onward(x, |ls|); Walking(ls, p, q, start, end, bt, x', 0, around, 0)
  {
    hide Part;
    hide Trapped;
    hide AllOverlap;
    hide Trap;
    hide Gone;
    hide Rest;
    var row := Ahead(ls, p, q);
    PartAll(ls[x], bt[x], y, e, start, end);
    assert row[0..] == row;
    if x > p {
      assert row[x - p - 1] == ls[x];
      TrappedNext(row, x - p - 1, start, end);
    }
    if x + 1 < |ls| {
      PartNone(ls[x + 1], 0, start, end);
    } else {
      assert row[x - p..] == [row[x - p]];
      TrappedOne(row[x - p], start, end);
    }
  }

  lemma {:induction false} TrappedNext(row: seq<Node<Extent>>, i: nat, start: nat, end: nat)
    requires i < |row| && Gone(row[i], start, end)
    ensures Trapped(row[i..], start, end) <==> Trapped(row[i + 1..], start, end)
  {
    assert row[i..][1..] == row[i + 1..];
  }

  lemma {:induction false} TrappedOne(l: Node<Extent>, start: nat, end: nat)
    ensures Trapped([l], start, end) <==> Trap(l, start, end)
  {
  }

  /** What the walk is shown decides it. */
  lemma {:induction false} WalkEnd(ls: seq<Node<Extent>>, p: nat, q: nat, start: nat, end: nat,
                                   bt: seq<Node<Extent>>, x: nat, y: nat, around: bool, e: nat)
    requires Walking(ls, p, q, start, end, bt, x, y, around, e)
    requires p == Place(ls, start) && q == Lower(ls[p].items, start)
    requires y < |bt[x].items| || (bt[x].items == [] && (around || (x > p && e == 0)))
    requires y < |bt[x].items| ==> !Overlap(bt[x].items[y].key, bt[x].items[y].val.count, start, end)
    ensures Stuck(ls, start, end) <==> Trap(bt[x], start, end)
  {
    hide Rest;
    hide Place;
    hide Lower;
    var row := Ahead(ls, p, q);
    if !around {
      if bt[x].items != [] {
        assert bt[x].items[y] == ls[x].items[y + e];
        assert x == p ==> ls[p].items[q..][e] == ls[p].items[q + e];
      }
      if x > p {
        assert row[x - p - 1..][0] == ls[x];
      }
    }
  }

  // ---- eviction

  /** One round of the loop: the key entry that names the block, then the block entry. */
  method EvictOne(bt: seq<Node<Extent>>, kt: seq<Node<Spot>>, order: nat, keyOrder: nat, heads: map<nat, Head>, size: nat,
                  x: nat, y: nat, ghost bs: seq<Block>, ghost ks: seq<Key>, ghost i: nat, ghost k: nat)
    returns (bt': seq<Node<Extent>>, kt': seq<Node<Spot>>)
    requires size > 0 && TreeOk(bt, order) && TreeOk(kt, keyOrder) && Agree(bs, ks, heads, size)
    requires Evicted(bs, ks, size, i, k, Flat(bt), Flat(kt))
    requires x < |bt| && y < |bt[x].items| && |Flat(bt[..x])| + y == i && bt[x].items[y].key in heads
    ensures bt' == bt[x := Removed(bt[x], y)] && TreeOk(bt', order) && TreeOk(kt', keyOrder)
    ensures |bt'[x].items| == |bt[x].items| - 1 && |Flat(bt')| == |Flat(bt)| - 1 && Flat(bt'[..x]) == Flat(bt[..x])
    ensures k < |bs| && bs[k] == bt[x].items[y] && Evicted(bs, ks, size, i, k + 1, Flat(bt'), Flat(kt'))
  {
    hide Flat;
    hide TreeOk;
    hide Agree;
    hide Removed;
    hide KeyAt;
    RemovedOk(bt, order, x, y);
    RemovedFlat(bt, x, y);
    var no := bt[x].items[y].key;
    EvictedHead(bs, ks, size, i, k, Flat(bt), Flat(kt));
    EvictedNamed(bs, ks, heads, size, i, k, Flat(bt), Flat(kt), no);
    kt' := DropKey(kt, keyOrder, heads[no].hash, no, size);
    EvictedNext(bs, ks, size, i, k, Flat(bt), Flat(kt), Flat(kt'));
    bt' := bt[x := Removed(bt[x], y)];
    RemovedSize(bt[x], y);
    assert bt'[..x] == bt[..x];
  }

  lemma {:induction false} RemovedSize<V>(l: Node<V>, q: nat)
    requires q < |l.items|
    ensures |Removed(l, q).items| == |l.items| - 1
  {
  }

  lemma {:induction false} EvictedHead(bs: seq<Block>, ks: seq<Key>, size: nat, i: nat, k: nat, rs: seq<Block>, r: seq<Key>)
    requires size > 0 && Evicted(bs, ks, size, i, k, rs, r) && i < |rs|
    ensures k < |bs| && rs[i] == bs[k]
  {
  }

  lemma {:induction false} EvictedNamed(bs: seq<Block>, ks: seq<Key>, heads: map<nat, Head>, size: nat, i: nat, k: nat, rs: seq<Block>, r: seq<Key>, no: nat)
    requires size > 0 && Agree(bs, ks, heads, size) && Evicted(bs, ks, size, i, k, rs, r) && no in heads
    ensures OneEach(r, size) && NamedBy(r, heads[no].hash, no, size)
  {
    EvictedFacts(bs, ks, size, i, k, rs, r);
    EvictedHash(bs, ks, heads, size, r, no);
  }

  lemma {:induction false} EvictedNext(bs: seq<Block>, ks: seq<Key>, size: nat, i: nat, k: nat, rs: seq<Block>, r: seq<Key>, r': seq<Key>)
    requires size > 0 && Evicted(bs, ks, size, i, k, rs, r) && k < |bs| && KeyGone(r, r', bs[k].key, size)
    ensures i < |rs| && Evicted(bs, ks, size, i, k + 1, rs[..i] + rs[i + 1..], r')
  {
    EvictedMore(bs, ks, size, i, k, rs, r, r');
  }

  /** An entry shown on a leaf without entries lies right of the region unless it overlaps it, and so does what
      follows. */
  lemma {:induction false} StalePast(ls: seq<Node<Extent>>, order: nat, p: nat, q: nat, start: nat, end: nat,
                                     bt: seq<Node<Extent>>, x: nat, bs: seq<Block>, i: nat, k: nat)
    requires Walking(ls, p, q, start, end, bt, x, 0, false, 0) && x > p && InLeaf(ls, p, start) && TreeOk(bt, order)
    requires bt[x].items == [] && !Trap(bt[x], start, end)
    requires i <= k <= |bs| && Flat(bt) == bs[..i] + bs[k..] && |Flat(bt[..x])| == i
    ensures k < |bs| ==> bs[k].key >= end
  {
    hide Flat;
    hide Trapped;
    hide Part;
    hide Ahead;
    hide AllOverlap;
    FlatAt(bt, x);
    FlatSides(bt, x, order);
    assert LeafOk(bt, x, order);
    assert x == p + 1 || bt[p + 1].low < bt[x].low;
    if k < |bs| {
      assert Flat(bt)[i] == bs[k] && Flat(bt)[i] == Flat(bt[x + 1..])[0];
    }
  }

  lemma {:induction false} NothingEvicted(keys: seq<Node<Spot>>, heads: map<nat, Head>, size: nat, start: nat, end: nat)
    requires size > 0 && Sorted(Flat(keys)) && Agree(Flat<Extent>([]), Flat(keys), heads, size)
    ensures Evicted(Flat<Extent>([]), Flat(keys), size, 0, 0, Flat<Extent>([]), Flat(keys))
    ensures Flat<Extent>([]) == [] == Spared(Flat<Extent>([]), start, end)
  {
  }

  lemma {:induction false} EvictedSeq(bs: seq<Block>, ks: seq<Key>, size: nat, i: nat, k: nat, rs: seq<Block>, r: seq<Key>)
    requires size > 0 && Evicted(bs, ks, size, i, k, rs, r)
    ensures i <= k <= |bs| && rs == bs[..i] + bs[k..]
  {
  }

  /** Behind the last entry of a leaf comes the next leaf, or the first one, where nothing overlaps. */
  lemma {:induction false} MovedAt(bt: seq<Node<Extent>>, x: nat, y: nat, bs: seq<Block>, i: nat, k: nat, start: nat, end: nat)
    requires x < |bt| && y == |bt[x].items| && |Flat(bt[..x])| + y == i <= k <= |bs| && Flat(bt) == bs[..i] + bs[k..]
    requires Uncut(bs, start) && forall j | 0 <= j < i :: bs[j].key < start
    ensures x + 1 < |bt| ==> |Flat(bt[..x + 1])| == i
    ensures x + 1 == |bt| ==> k == |bs| && (bt[0].items != [] ==> !Overlap(bt[0].items[0].key, bt[0].items[0].val.count, start, end))
  {
    hide Flat;
    FlatAt(bt, x);
    FlatHead(bt);
    if x + 1 == |bt| {
      FlatNone<Extent>();
      assert bt[x + 1..] == [];
      if bt[0].items != [] {
        assert Flat(bt)[0] == bt[0].items[0] == bs[0];
      }
    }
  }

  lemma {:induction false} PastRegion(bs: seq<Block>, k: nat, start: nat, end: nat)
    requires k < |bs| && Uncut(bs, start) && bs[k].key >= start && !Overlap(bs[k].key, bs[k].val.count, start, end)
    ensures bs[k].key >= end
  {
  }

  /** The entry the walk is shown is the next one of the run. */
  lemma {:induction false} ShownLive(bs: seq<Block>, i: nat, k: nat, bt: seq<Node<Extent>>, x: nat, y: nat)
    requires i <= k <= |bs| && Flat(bt) == bs[..i] + bs[k..] && x < |bt| && y < |bt[x].items| && |Flat(bt[..x])| + y == i
    ensures k < |bs| && bs[k] == bt[x].items[y]
  {
    hide Flat;
    FlatAt(bt, x);
    assert Flat(bt)[i] == bt[x].items[y];
  }

  /** The state of the walk: what it is shown is the entry behind the run evicted so far, an entry left of the
      region once it is around, or the first slot of a leaf without entries. */
  ghost predicate Shown(ls: seq<Node<Extent>>, p: nat, q: nat, start: nat, end: nat, bs: seq<Block>, i: nat, k: nat,
                        bt: seq<Node<Extent>>, x: nat, y: nat, around: bool, e: nat) {
    && Walking(ls, p, q, start, end, bt, x, y, around, e) && x < |bt| == |ls|
    && i <= k <= |bs| && Flat(bt) == bs[..i] + bs[k..]
    && (y < |bt[x].items| || (bt[x].items == [] && y == 0 && (around || (x > p && e == 0))))
    && (if around then k == |bs| && (y < |bt[x].items| ==> !Overlap(bt[x].items[y].key, bt[x].items[y].val.count, start, end))
        else |Flat(bt[..x])| + y == i)
    && (forall j | i <= j < k :: Overlap(bs[j].key, bs[j].val.count, start, end))
  }

  /** Where the walk was found a leaf's end, it goes on. */
  lemma {:induction false} ShownNext(ls: seq<Node<Extent>>, p: nat, q: nat, start: nat, end: nat, bs: seq<Block>, i: nat, k: nat,
                                     bt: seq<Node<Extent>>, x: nat, y: nat, e: nat)
    requires Walking(ls, p, q, start, end, bt, x, y, false, e) && x < |bt| && y == |bt[x].items| && (x > p ==> e > 0)
    requires |Flat(bt[..x])| + y == i <= k <= |bs| && Flat(bt) == bs[..i] + bs[k..]
    requires Uncut(bs, start) && forall j | 0 <= j < i :: bs[j].key < start
    requires forall j | i <= j < k :: Overlap(bs[j].key, bs[j].val.count, start, end)
    ensures var (x', around) := Onward(x, |ls|); Shown(ls, p, q, start, end, bs, i, k, bt, x', 0, around, 0)
  {
    hide Flat;
    hide Part;
    hide Trapped;
    hide Ahead;
    hide AllOverlap;
    hide Uncut;
    hide Rest;
    hide Trap;
    WalkMove(ls, p, q, start, end, bt, x, y, e);
    MovedAt(bt, x, y, bs, i, k, start, end);
  }

  /** Unless the walk is stuck, the run evicted is all that overlaps. */
  lemma {:induction false} ShownLast(ls: seq<Node<Extent>>, order: nat, p: nat, q: nat, start: nat, end: nat, bs: seq<Block>, i: nat, k: nat,
                                     bt: seq<Node<Extent>>, x: nat, y: nat, around: bool, e: nat)
    requires Shown(ls, p, q, start, end, bs, i, k, bt, x, y, around, e) && TreeOk(bt, order)
    requires InLeaf(ls, p, start) && p == Place(ls, start) && q == Lower(ls[p].items, start)
    requires y < |bt[x].items| ==> !Overlap(bt[x].items[y].key, bt[x].items[y].val.count, start, end)
    requires start < end && SortedBlocks(bs) && Uncut(bs, start)
    requires (forall j | 0 <= j < i :: bs[j].key < start) && (forall j | i <= j < |bs| :: bs[j].key >= start)
    ensures Stuck(ls, start, end) <==> Trap(bt[x], start, end)
    ensures !Trap(bt[x], start, end) ==>
              bs[..i] + bs[k..] == Spared(bs, start, end) && forall j | 0 <= j < |bs| :: i <= j < k <==> start <= bs[j].key < end
  {
    hide Flat;
    hide TreeOk;
    hide Walking;
    hide Trap;
    hide Stuck;
    hide Place;
    hide Lower;
    hide Spared;
    hide SortedBlocks;
    hide Uncut;
    WalkEnd(ls, p, q, start, end, bt, x, y, around, e);
    if !Trap(bt[x], start, end) {
      if !around {
        if y < |bt[x].items| {
          ShownLive(bs, i, k, bt, x, y);
          PastRegion(bs, k, start, end);
        } else {
          StalePast(ls, order, p, q, start, end, bt, x, bs, i, k);
        }
      }
      RunEnd(bs, i, k, start, end);
      SparedRun(bs, i, k, start, end);
    }
  }

  /** One round: the entry shown is evicted from both trees, and the next one shown. */
  method EvictStep(ghost ls: seq<Node<Extent>>, bt: seq<Node<Extent>>, kt: seq<Node<Spot>>, order: nat, keyOrder: nat, heads: map<nat, Head>, size: nat,
                   start: nat, end: nat, x: nat, y: nat, ghost p: nat, ghost q: nat, ghost around: bool, ghost e: nat,
                   ghost bs: seq<Block>, ghost ks: seq<Key>, ghost i: nat, ghost k: nat)
    returns (bt': seq<Node<Extent>>, kt': seq<Node<Spot>>, x': nat, y': nat, ghost around': bool, ghost e': nat)
    requires size > 0 && TreeOk(bt, order) && TreeOk(kt, keyOrder) && Agree(bs, ks, heads, size)
    requires Evicted(bs, ks, size, i, k, Flat(bt), Flat(kt)) && Shown(ls, p, q, start, end, bs, i, k, bt, x, y, around, e)
    requires y < |bt[x].items| && Overlap(bt[x].items[y].key, bt[x].items[y].val.count, start, end)
    requires Uncut(bs, start) && (forall j | 0 <= j < i :: bs[j].key < start) && forall j | 0 <= j < |bs| :: bs[j].key in heads
    ensures TreeOk(bt', order) && TreeOk(kt', keyOrder) && |Flat(bt')| < |Flat(bt)|
    ensures k < |bs| && Evicted(bs, ks, size, i, k + 1, Flat(bt'), Flat(kt'))
    ensures Shown(ls, p, q, start, end, bs, i, k + 1, bt', x', y', around', e')
  {
    hide Flat;
    hide TreeOk;
    hide Agree;
    hide Evicted;
    hide Walking;
    hide Uncut;
    hide Removed;
    ShownLive(bs, i, k, bt, x, y);
    WalkEvict(ls, p, q, start, end, bt, x, y, e);
    bt', kt' := EvictOne(bt, kt, order, keyOrder, heads, size, x, y, bs, ks, i, k);
    EvictedSeq(bs, ks, size, i, k + 1, Flat(bt'), Flat(kt'));
    x', y', around', e' := x, y, false, e + 1;
    if y == |bt'[x].items| {
      ShownNext(ls, p, q, start, end, bs, i, k + 1, bt', x, y, e + 1);
      var next := Onward(x, |bt|);
      x', y', around', e' := next.0, 0, next.1, 0;
    }
  }

  /** The eviction loop of obj_reserve. It goes wrong, deleting from a leaf without entries, exactly when the walk
      is led onto one whose first slot seems to overlap the region. */
  method Evict(ls: seq<Node<Extent>>, keys: seq<Node<Spot>>, order: nat, keyOrder: nat, heads: map<nat, Head>, size: nat, start: nat, end: nat)
    returns (ok: bool, bt: seq<Node<Extent>>, kt: seq<Node<Spot>>, ghost i: nat, ghost k: nat)
    requires size > 0 && start < end && TreeOk(ls, order) && TreeOk(keys, keyOrder)
    requires SortedBlocks(Flat(ls)) && Uncut(Flat(ls), start) && Agree(Flat(ls), Flat(keys), heads, size)
    requires forall j | 0 <= j < |Flat(ls)| :: Flat(ls)[j].key in heads
    ensures ok <==> ls == [] || !Stuck(ls, start, end)
    ensures ok ==> TreeOk(bt, order) && TreeOk(kt, keyOrder) && Evicted(Flat(ls), Flat(keys), size, i, k, Flat(bt), Flat(kt))
    ensures ok ==> Flat(bt) == Spared(Flat(ls), start, end)
    ensures ok ==> forall j | 0 <= j < |Flat(ls)| :: i <= j < k <==> start <= Flat(ls)[j].key < end
  {
    hide Flat;
    hide TreeOk;
    hide Spared;
    hide Evicted;
    hide Agree;
    hide SortedBlocks;
    hide Uncut;
    hide Stuck;
    hide Walking;
    hide Shown;
    hide Place;
    hide Lower;
    ghost var bs, ks := Flat(ls), Flat(keys);
    bt, kt := ls, keys;
    FlatSorted(keys, keyOrder);
    if ls == [] {
      i, k := 0, 0;
      NothingEvicted(keys, heads, size, start, end);
      return true, bt, kt, i, k;
    }
    FirstLow(ls, order);
    PlaceIn(ls, start);
    var p := Place(ls, start);
    var q := Lower(ls[p].items, start);
    FoundAt(ls, order, p, q, start);
    i := |Flat(ls[..p])| + q;
    k := i;
    EvictedNone(bs, ks, heads, size, i);
    WalkStart(ls, p, q, start, end);
    var x: nat, y: nat := p, q;
    ghost var e, around := 0, false;
    if q == |ls[p].items| {
      ShownNext(ls, p, q, start, end, bs, i, k, bt, x, y, e);
      var next := Onward(x, |ls|);
      x, y, around := next.0, 0, next.1;
    } else {
      ShownFirst(ls, p, q, start, end);
    }
    ShownIn(ls, p, q, start, end, bs, i, k, bt, x, y, around, e);
    while y < |bt[x].items| && Overlap(bt[x].items[y].key, bt[x].items[y].val.count, start, end)
      invariant k <= |bs| && TreeOk(bt, order) && TreeOk(kt, keyOrder) && Evicted(bs, ks, size, i, k, Flat(bt), Flat(kt))
      invariant Shown(ls, p, q, start, end, bs, i, k, bt, x, y, around, e) && x < |bt|
      decreases |Flat(bt)|
    {
      bt, kt, x, y, around, e := EvictStep(ls, bt, kt, order, keyOrder, heads, size, start, end, x, y, p, q, around, e, bs, ks, i, k);
      k := k + 1;
      ShownIn(ls, p, q, start, end, bs, i, k, bt, x, y, around, e);
    }
    ShownLast(ls, order, p, q, start, end, bs, i, k, bt, x, y, around, e);
    EvictedSeq(bs, ks, size, i, k, Flat(bt), Flat(kt));
    ok := bt[x].items != [] || !Overlap(bt[x].stale.key, bt[x].stale.val.count, start, end);
  }

  lemma {:induction false} ShownIn(ls: seq<Node<Extent>>, p: nat, q: nat, start: nat, end: nat, bs: seq<Block>, i: nat, k: nat,
                                   bt: seq<Node<Extent>>, x: nat, y: nat, around: bool, e: nat)
    requires Shown(ls, p, q, start, end, bs, i, k, bt, x, y, around, e)
    ensures x < |bt| && k <= |bs|
  {
  }

  lemma {:induction false} ShownFirst(ls: seq<Node<Extent>>, p: nat, q: nat, start: nat, end: nat)
    requires p < |ls| && q < |ls[p].items|
    ensures var bs, i := Flat(ls), |Flat(ls[..p])| + q; i <= |bs| && Shown(ls, p, q, start, end, bs, i, i, ls, p, q, false, 0)
  {
    hide Flat;
    hide Walking;
    WalkStart(ls, p, q, start, end);
    FlatAt(ls, p);
    var bs, i := Flat(ls), |Flat(ls[..p])| + q;
    assert bs == bs[..i] + bs[i..];
  }

  // ---- where obj_upsert puts a key

  /** Place `q` of leaf `p`, with `nm` matches counted on the way; or none. */
  datatype Seat = Seat(p: nat, q: nat, nm: nat) | NoSeat

  /** Where the loop over the entries of one hash ends when none of them has the key: behind them; on the first
      again if the tree is one leaf of that hash only; and outside the window of the hash if they end a leaf. */
  function SeatFor(kt: seq<Node<Spot>>, h: nat): Seat
    requires kt != []
  {
    var p := Place(kt, h);
    var q := Lower(kt[p].items, h);
    var n := Run(kt[p].items, q, h);
    if n == 0 then Seat(p, q, 0)
    else if q + n < |kt[p].items| then Seat(p, q + n, n)
    else if |kt| == 1 && q == 0 then Seat(0, 0, 1)
    else NoSeat
  }

  /** The seat keeps the order. */
  lemma {:induction false} SeatOk(kt: seq<Node<Spot>>, order: nat, h: nat)
    requires TreeOk(kt, order) && kt != [] && SeatFor(kt, h).Seat?
    ensures var s := SeatFor(kt, h);
            && s.p < |kt| && InLeaf(kt, s.p, h) && Between(kt[s.p].items, s.q, h) && |kt[s.p].items| <= order
            && s.nm <= s.q + 1 && (s.nm > 0 ==> s.q < |kt[s.p].items|)
  {
    hide TreeOk;
    hide Place;
    hide Lower;
    hide Run;
    FirstLow(kt, order);
    PlaceIn(kt, h);
    LeafSorted(kt, order, Place(kt, h));
    var p := Place(kt, h);
    var q := Lower(kt[p].items, h);
    var n := Run(kt[p].items, q, h);
    assert q < q + n < |kt[p].items| ==> kt[p].items[q].key <= kt[p].items[q + n].key;
  }

  /** Among all entries, those before the seat are not above the hash and those behind it not below. */
  lemma {:induction false} SeatOrder<V>(ls: seq<Node<V>>, order: nat, p: nat, q: nat, h: nat)
    requires TreeOk(ls, order) && p < |ls| && InLeaf(ls, p, h) && Between(ls[p].items, q, h)
    ensures var at := |Flat(ls[..p])| + q;
            && at <= |Flat(ls)| && (forall i | 0 <= i < at :: Flat(ls)[i].key <= h) && (forall i | at <= i < |Flat(ls)| :: Flat(ls)[i].key >= h)
  {
    hide Flat;
    hide TreeOk;
    FlatAt(ls, p);
    FlatSorted(ls, order);
    FlatSides(ls, p, order);
    var all, a, items, b, at := Flat(ls), Flat(ls[..p]), ls[p].items, Flat(ls[p + 1..]), |Flat(ls[..p])| + q;
    if at > 0 {
      assert all[at - 1] == if q > 0 then items[q - 1] else a[|a| - 1];
    }
    if at < |all| {
      assert all[at] == if q < |items| then items[q] else b[0];
    }
    SortedAround(all, at, h);
  }

  lemma {:induction false} SortedAround<V>(s: seq<Item<V>>, at: nat, h: nat)
    requires Sorted(s) && at <= |s| && (at > 0 ==> s[at - 1].key <= h) && (at < |s| ==> s[at].key >= h)
    ensures (forall i | 0 <= i < at :: s[i].key <= h) && (forall i | at <= i < |s| :: s[i].key >= h)
  {
    forall i | 0 <= i < at ensures s[i].key <= h {
      assert i == at - 1 || s[i].key <= s[at - 1].key;
    }
    forall i | at <= i < |s| ensures s[i].key >= h {
      assert i == at || s[at].key <= s[i].key;
    }
  }

  /** The key entry names an object of this name. */
  predicate Names(k: Key, heads: map<nat, Head>, size: nat, name: nat)
    requires size > 0
  {
    KeyAt(k, size) in heads && heads[KeyAt(k, size)].name == name
  }

  /** The key part of obj_upsert: looks through the entries of one hash for the same key. */
  method FindKey(kt: seq<Node<Spot>>, order: nat, heads: map<nat, Head>, size: nat, h: nat, name: nat) returns (hit: bool, p: nat, q: nat)
    requires size > 0 && TreeOk(kt, order) && kt != [] && forall i | 0 <= i < |Flat(kt)| :: KeyAt(Flat(kt)[i], size) in heads
    ensures hit ==> p < |kt| && q < |kt[p].items| && kt[p].items[q].key == h && Names(kt[p].items[q], heads, size, name)
    ensures !hit ==> forall i | 0 <= i < |Flat(kt)| && Flat(kt)[i].key == h :: !Names(Flat(kt)[i], heads, size, name)
  {
    hide TreeOk;
    hide Flat;
    hide KeyAt;
    hide Place;
    FirstLow(kt, order);
    PlaceIn(kt, h);
    p := Place(kt, h);
    var items := kt[p].items;
    q := Lower(items, h);
    ghost var first := q;
    while q < |items| && items[q].key == h
      invariant first <= q <= |items| && forall j | first <= j < q :: items[j].key == h && !Names(items[j], heads, size, name)
    {
      ItemIn(kt, p, q);
      if heads[KeyAt(items[q], size)].name == name {
        return true, p, q;
      }
      q := q + 1;
    }
    hit := false;
    NoneOf(kt, order, p, first, q, heads, size, h, name);
  }

  lemma {:induction false} ItemIn<V>(ls: seq<Node<V>>, p: nat, q: nat)
    requires p < |ls| && q < |ls[p].items|
    ensures var at := |Flat(ls[..p])| + q; at < |Flat(ls)| && Flat(ls)[at] == ls[p].items[q]
  {
    hide Flat;
    FlatAt(ls, p);
  }

  lemma {:induction false} NoneOf(kt: seq<Node<Spot>>, order: nat, p: nat, q: nat, q': nat, heads: map<nat, Head>, size: nat, h: nat, name: nat)
    requires size > 0 && TreeOk(kt, order) && p < |kt| && InLeaf(kt, p, h) && q == Lower(kt[p].items, h) && q <= q' <= |kt[p].items|
    requires forall j | q <= j < q' :: kt[p].items[j].key == h && !Names(kt[p].items[j], heads, size, name)
    requires q' < |kt[p].items| ==> kt[p].items[q'].key != h
    ensures forall i | 0 <= i < |Flat(kt)| && Flat(kt)[i].key == h :: !Names(Flat(kt)[i], heads, size, name)
  {
    hide Flat;
    hide TreeOk;
    hide Lower;
    hide Names;
    var items := kt[p].items;
    LeafSorted(kt, order, p);
    assert q < q' < |items| ==> items[q].key <= items[q'].key;
    RunWhole(items, h, q, q' - q);
    forall i | 0 <= i < |Flat(kt)| && Flat(kt)[i].key == h ensures !Names(Flat(kt)[i], heads, size, name) {
      EqualInLeaf(kt, order, p, h, i);
    }
  }
}
