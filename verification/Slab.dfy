/** The circular slab (lib/cache.c): reserving a region at the write cursor evicts what it overlaps from the two
    trees, and closing an object adds it to both. Here the trees are their sequences of entries. */
module Slab {
  import opened Arith
  import opened Leaves

  /** An entry of the block tree, and of the key tree. */
  datatype Extent = Extent(count: nat, xid: nat)
  datatype Spot = Spot(vno: nat, count: nat)
  type Block = Item<Extent>
  type Key = Item<Spot>

  /** What the object header in the slab says: the key and its hash. */
  datatype Head = Head(hash: nat, name: nat)

  /** An object created and not yet closed. */
  datatype Reserved = Reserved(vno: nat, count: nat, head: Head)

  /** obj_overlap. */
  predicate Overlap(no: nat, count: nat, start: nat, end: nat) {
    no < end && start < no + count
  }

  /** A half-open interval of blocks lies inside the slab and the cursor does not cut it. */
  predicate Fits(no: nat, count: nat, size: nat, cursor: nat) {
    0 < count && no + count <= size && !(no < cursor < no + count)
  }

  /** Where `count` blocks go when the cursor is at `vno`: there, or at the start when they would stick out. */
  function Target(vno: nat, count: nat, size: nat): nat
    requires 0 < count <= size
  {
    if vno % size + count > size then vno + (size - vno % size) else vno
  }

  lemma {:induction false} NextTurn(vno: nat, size: nat)
    requires size > 0
    ensures (vno + (size - vno % size)) % size == 0
  {
    var q, r := vno / size, vno % size;
    assert size * (q + 1) == size * q + size;
    Quotient(vno + (size - r), size, q + 1, 0);
  }

  /** The least place at or after the cursor at which the blocks do not wrap: the cursor itself if they fit there. */
  lemma {:induction false} TargetFits(vno: nat, count: nat, size: nat)
    requires 0 < count <= size
    ensures var t := Target(vno, count, size);
            && t >= vno && t % size + count <= size && (t % size == vno % size || t % size == 0)
            && (vno % size + count <= size ==> t == vno)
            && forall u | vno <= u < t :: u % size + count > size
  {
    NextTurn(vno, size);
    var t := Target(vno, count, size);
    forall u | vno <= u < t ensures u % size + count > size {
      var q, r := vno / size, vno % size;
      Quotient(u, size, q, r + (u - vno));
    }
  }

  lemma {:induction false} CursorAfter(vno: nat, count: nat, size: nat)
    requires size > 0 && vno % size + count <= size
    ensures (vno + count) % size == if vno % size + count == size then 0 else vno % size + count
  {
    var q, r := vno / size, vno % size;
    if r + count == size {
      assert size * (q + 1) == size * q + size;
      Quotient(vno + count, size, q + 1, 0);
    } else {
      Quotient(vno + count, size, q, r + count);
    }
  }

  // ---- the block tree

  predicate SortedBlocks(bs: seq<Block>) {
    forall i, j | 0 <= i < j < |bs| :: bs[i].key + bs[i].val.count <= bs[j].key
  }

  /** The entries a region leaves alone, in order. */
  function Spared(bs: seq<Block>, start: nat, end: nat): seq<Block> {
    if bs == [] then []
    else if Overlap(bs[0].key, bs[0].val.count, start, end) then Spared(bs[1..], start, end)
    else [bs[0]] + Spared(bs[1..], start, end)
  }

  lemma {:induction false} SparedAppend(a: seq<Block>, b: seq<Block>, start: nat, end: nat)
    ensures Spared(a + b, start, end) == Spared(a, start, end) + Spared(b, start, end)
  {
    if a == [] {
      assert a + b == b;
    } else {
      assert (a + b)[1..] == a[1..] + b;
      SparedAppend(a[1..], b, start, end);
    }
  }

  /** Exactly the entries that do not overlap. */
  lemma {:induction false} SparedIs(bs: seq<Block>, start: nat, end: nat)
    ensures forall x :: x in Spared(bs, start, end) <==> x in bs && !(x.key < end && start < x.key + x.val.count)
  {
    if bs != [] {
      SparedIs(bs[1..], start, end);
      assert forall x :: x in bs <==> x == bs[0] || x in bs[1..];
    }
  }

  lemma {:induction false} SparedAll(bs: seq<Block>, start: nat, end: nat)
    requires forall i | 0 <= i < |bs| :: !Overlap(bs[i].key, bs[i].val.count, start, end)
    ensures Spared(bs, start, end) == bs
  {
    if bs != [] {
      SparedAll(bs[1..], start, end);
    }
  }

  lemma {:induction false} SparedNone(bs: seq<Block>, start: nat, end: nat)
    requires forall i | 0 <= i < |bs| :: Overlap(bs[i].key, bs[i].val.count, start, end)
    ensures Spared(bs, start, end) == []
  {
    if bs != [] {
      SparedNone(bs[1..], start, end);
    }
  }

  /** Only a run of entries is evicted, from the first at or after the region's start. */
  lemma {:induction false} SparedRun(bs: seq<Block>, i: nat, k: nat, start: nat, end: nat)
    requires i <= k <= |bs|
    requires forall j | 0 <= j < i :: !Overlap(bs[j].key, bs[j].val.count, start, end)
    requires forall j | i <= j < k :: Overlap(bs[j].key, bs[j].val.count, start, end)
    requires forall j | k <= j < |bs| :: !Overlap(bs[j].key, bs[j].val.count, start, end)
    ensures Spared(bs, start, end) == bs[..i] + bs[k..]
  {
    assert bs == bs[..i] + (bs[i..k] + bs[k..]);
    SparedAppend(bs[..i], bs[i..k] + bs[k..], start, end);
    SparedAppend(bs[i..k], bs[k..], start, end);
    SparedAll(bs[..i], start, end);
    SparedNone(bs[i..k], start, end);
    SparedAll(bs[k..], start, end);
  }

  // ---- the key tree

  function KeyAt(k: Key, size: nat): nat
    requires size > 0
  {
    k.val.vno % size
  }

  /** A key entry names a block entry of its length, found under its own hash. */
  ghost predicate KeyAgrees(bs: seq<Block>, heads: map<nat, Head>, size: nat, k: Key)
    requires size > 0
  {
    && KeyAt(k, size) in heads && heads[KeyAt(k, size)].hash == k.key
    && exists b | b in bs :: b.key == KeyAt(k, size) && b.val.count == k.val.count
  }

  /** Every key entry does, and no two name the same. */
  ghost predicate Agree(bs: seq<Block>, ks: seq<Key>, heads: map<nat, Head>, size: nat)
    requires size > 0
  {
    && (forall i | 0 <= i < |ks| :: KeyAgrees(bs, heads, size, ks[i]))
    && (forall i, j | 0 <= i < j < |ks| :: KeyAt(ks[i], size) != KeyAt(ks[j], size))
  }

  lemma {:induction false} DroppedKey(ks: seq<Key>, i: nat, size: nat)
    requires size > 0 && Sorted(ks) && i < |ks|
    requires forall x, y | 0 <= x < y < |ks| :: KeyAt(ks[x], size) != KeyAt(ks[y], size)
    ensures var r := ks[..i] + ks[i + 1..];
            && Sorted(r) && (forall x, y | 0 <= x < y < |r| :: KeyAt(r[x], size) != KeyAt(r[y], size))
            && (forall k :: k in r <==> k in ks && KeyAt(k, size) != KeyAt(ks[i], size))
  {
    hide KeyAt;
    var r := ks[..i] + ks[i + 1..];
    assert forall j | 0 <= j < |r| :: r[j] == ks[if j < i then j else j + 1];
    forall k ensures k in r <==> k in ks && KeyAt(k, size) != KeyAt(ks[i], size) {
      if k in ks && KeyAt(k, size) != KeyAt(ks[i], size) {
        var j :| 0 <= j < |ks| && ks[j] == k;
        assert r[if j < i then j else j - 1] == k;
      }
    }
  }

  // ---- eviction

  predicate Uncut(bs: seq<Block>, start: nat) {
    forall i | 0 <= i < |bs| :: 0 < bs[i].val.count && !(bs[i].key < start < bs[i].key + bs[i].val.count)
  }

  predicate AllOverlap(bs: seq<Block>, start: nat, end: nat) {
    forall i | 0 <= i < |bs| :: Overlap(bs[i].key, bs[i].val.count, start, end)
  }

  /** Key entries outside the region, and only those. */
  ghost predicate KeysSpared(ks: seq<Key>, r: seq<Key>, size: nat, start: nat, end: nat)
    requires size > 0
  {
    forall k :: k in r <==> k in ks && !(start <= KeyAt(k, size) < end)
  }

  /** A block tree without the entries of one run, and the key tree without what named them. */
  ghost predicate Evicted(bs: seq<Block>, ks: seq<Key>, size: nat, i: nat, k: nat, rs: seq<Block>, r: seq<Key>)
    requires size > 0
  {
    && i <= k <= |bs| && rs == bs[..i] + bs[k..] && Sorted(r)
    && (forall x, y | 0 <= x < y < |r| :: KeyAt(r[x], size) != KeyAt(r[y], size))
    && (forall x :: x in r <==> x in ks && forall j | i <= j < k :: KeyAt(x, size) != bs[j].key)
  }

  lemma {:induction false} EvictedHash(bs: seq<Block>, ks: seq<Key>, heads: map<nat, Head>, size: nat, r: seq<Key>, no: nat)
    requires size > 0 && Agree(bs, ks, heads, size) && no in heads && forall x | x in r :: x in ks
    ensures forall j | 0 <= j < |r| && KeyAt(r[j], size) == no :: r[j].key == heads[no].hash
  {
    forall j | 0 <= j < |r| && KeyAt(r[j], size) == no ensures r[j].key == heads[no].hash {
      assert r[j] in ks;
      var m :| 0 <= m < |ks| && ks[m] == r[j];
      assert KeyAgrees(bs, heads, size, ks[m]);
    }
  }

  lemma {:induction false} EvictedMore(bs: seq<Block>, ks: seq<Key>, size: nat, i: nat, k: nat, rs: seq<Block>, r: seq<Key>, r': seq<Key>)
    requires size > 0 && Evicted(bs, ks, size, i, k, rs, r) && k < |bs|
    requires Sorted(r') && (forall x :: x in r' <==> x in r && KeyAt(x, size) != bs[k].key)
    requires forall x, y | 0 <= x < y < |r'| :: KeyAt(r'[x], size) != KeyAt(r'[y], size)
    ensures i < |rs| && rs[i] == bs[k] && Evicted(bs, ks, size, i, k + 1, rs[..i] + rs[i + 1..], r')
  {
    assert rs[..i] + rs[i + 1..] == bs[..i] + bs[k + 1..];
  }

  lemma {:induction false} EvictedNone(bs: seq<Block>, ks: seq<Key>, heads: map<nat, Head>, size: nat, i: nat)
    requires size > 0 && i <= |bs| && Sorted(ks) && Agree(bs, ks, heads, size)
    ensures Evicted(bs, ks, size, i, i, bs, ks) && bs == bs[..i] + bs[i..]
  {
  }

  lemma {:induction false} EvictedFacts(bs: seq<Block>, ks: seq<Key>, size: nat, i: nat, k: nat, rs: seq<Block>, r: seq<Key>)
    requires size > 0 && Evicted(bs, ks, size, i, k, rs, r)
    ensures Sorted(r) && (forall x, y | 0 <= x < y < |r| :: KeyAt(r[x], size) != KeyAt(r[y], size)) && forall x | x in r :: x in ks
  {
  }

  lemma {:induction false} RunEnd(bs: seq<Block>, i: nat, k: nat, start: nat, end: nat)
    requires start < end && SortedBlocks(bs) && Uncut(bs, start) && i <= k <= |bs|
    requires (forall j | 0 <= j < i :: bs[j].key < start) && (forall j | i <= j < |bs| :: bs[j].key >= start)
    requires forall j | i <= j < k :: Overlap(bs[j].key, bs[j].val.count, start, end)
    requires k < |bs| ==> bs[k].key >= end
    ensures forall j | 0 <= j < i || k <= j < |bs| :: !Overlap(bs[j].key, bs[j].val.count, start, end)
    ensures forall j | 0 <= j < |bs| :: i <= j < k <==> start <= bs[j].key < end
  {
    if k < |bs| {
      forall j | k <= j < |bs| ensures bs[j].key >= end {
        assert k < j ==> bs[k].key + bs[k].val.count <= bs[j].key;
      }
    }
  }

  // ---- the cache

  /** All there is to say about the slab and its trees. */
  datatype State = State(size: nat, vno: nat, blocks: seq<Block>, keys: seq<Key>, heads: map<nat, Head>, open: seq<Reserved>)

  function OpenAt(r: Reserved, size: nat): nat
    requires size > 0
  {
    r.vno % size
  }

  predicate Apart(no: nat, count: nat, no': nat, count': nat) {
    !Overlap(no, count, no', no' + count')
  }

  /** Entries lie in order inside the slab, uncut by the cursor. */
  predicate BlocksOk(s: State)
    requires s.size > 0
  {
    && SortedBlocks(s.blocks)
    && forall i | 0 <= i < |s.blocks| :: Fits(s.blocks[i].key, s.blocks[i].val.count, s.size, s.vno % s.size) && s.blocks[i].key in s.heads
  }

  /** So do the regions of open objects, apart from each other and from the entries. */
  predicate OpenOk(s: State)
    requires s.size > 0
  {
    && (forall i | 0 <= i < |s.open| ::
          && Fits(OpenAt(s.open[i], s.size), s.open[i].count, s.size, s.vno % s.size)
          && OpenAt(s.open[i], s.size) in s.heads && s.heads[OpenAt(s.open[i], s.size)] == s.open[i].head)
    && (forall i, j | 0 <= i < |s.open| && 0 <= j < |s.open| && i != j ::
          Apart(OpenAt(s.open[i], s.size), s.open[i].count, OpenAt(s.open[j], s.size), s.open[j].count))
    && (forall i, j | 0 <= i < |s.blocks| && 0 <= j < |s.open| ::
          Apart(s.blocks[i].key, s.blocks[i].val.count, OpenAt(s.open[j], s.size), s.open[j].count))
  }

  /** The key tree agrees with the block tree, and has one entry per key. */
  ghost predicate KeysOk(s: State, hash: nat -> nat)
    requires s.size > 0
  {
    && Sorted(s.keys) && Agree(s.blocks, s.keys, s.heads, s.size)
    && (forall no | no in s.heads :: s.heads[no].hash == hash(s.heads[no].name))
    && (forall i, j | 0 <= i < j < |s.keys| :: Name(s, i) != Name(s, j))
  }

  /** The key that entry `i` of the key tree stands for. */
  ghost function Name(s: State, i: nat): nat
    requires s.size > 0 && i < |s.keys|
  {
    if KeyAt(s.keys[i], s.size) in s.heads then s.heads[KeyAt(s.keys[i], s.size)].name else 0
  }

  ghost predicate Sound(s: State, hash: nat -> nat) {
    s.size > 0 && BlocksOk(s) && OpenOk(s) && KeysOk(s, hash)
  }

  /** The range lock is free: no open object is in the way. */
  predicate LockFree(s: State, count: nat)
    requires 0 < count <= s.size
  {
    var start := Target(s.vno, count, s.size) % s.size;
    forall i | 0 <= i < |s.open| :: !Overlap(OpenAt(s.open[i], s.size), s.open[i].count, start, start + count)
  }

  // ---- creating

  /** The state after a region was reserved for an object, given what the eviction left. */
  function Created(s: State, count: nat, head: Head, rs: seq<Block>, r: seq<Key>): State
    requires 0 < count <= s.size
  {
    var t := Target(s.vno, count, s.size);
    State(s.size, t + count, rs, r, s.heads[t % s.size := head], s.open + [Reserved(t, count, head)])
  }

  lemma {:induction false} CreatedUncut(s: State, count: nat)
    requires s.size > 0 && 0 < count <= s.size && BlocksOk(s)
    ensures Uncut(s.blocks, Target(s.vno, count, s.size) % s.size)
  {
    TargetFits(s.vno, count, s.size);
  }

  /** A gap that the region did not touch is not cut by the cursor behind it. */
  lemma {:induction false} CursorFits(no: nat, count: nat, size: nat, t: nat, n: nat)
    requires 0 < count && no + count <= size && 0 < n && t % size + n <= size && !Overlap(no, count, t % size, t % size + n)
    ensures Fits(no, count, size, (t + n) % size)
  {
    CursorAfter(t, n, size);
  }

  lemma {:induction false} CreatedBlocks(s: State, count: nat, head: Head, rs: seq<Block>, r: seq<Key>, i: nat, k: nat)
    requires s.size > 0 && 0 < count <= s.size && BlocksOk(s) && i <= k <= |s.blocks| && rs == s.blocks[..i] + s.blocks[k..]
    requires var start := Target(s.vno, count, s.size) % s.size;
             forall j | 0 <= j < i || k <= j < |s.blocks| :: !Overlap(s.blocks[j].key, s.blocks[j].val.count, start, start + count)
    ensures BlocksOk(Created(s, count, head, rs, r))
    ensures forall j | 0 <= j < |rs| :: rs[j] == s.blocks[if j < i then j else j - i + k]
  {
    var t := Created(s, count, head, rs, r);
    TargetFits(s.vno, count, s.size);
    forall j | 0 <= j < |rs| ensures Fits(rs[j].key, rs[j].val.count, s.size, t.vno % s.size) && rs[j].key in t.heads {
      var m := if j < i then j else j - i + k;
      assert rs[j] == s.blocks[m];
      CursorFits(rs[j].key, rs[j].val.count, s.size, Target(s.vno, count, s.size), count);
    }
  }

  lemma {:induction false} CreatedOpen(s: State, count: nat, head: Head, rs: seq<Block>, r: seq<Key>, i: nat, k: nat)
    requires s.size > 0 && 0 < count <= s.size && OpenOk(s) && LockFree(s, count) && i <= k <= |s.blocks|
    requires rs == s.blocks[..i] + s.blocks[k..]
    requires var start := Target(s.vno, count, s.size) % s.size;
             forall j | 0 <= j < i || k <= j < |s.blocks| :: !Overlap(s.blocks[j].key, s.blocks[j].val.count, start, start + count)
    ensures OpenOk(Created(s, count, head, rs, r))
  {
    var t := Created(s, count, head, rs, r);
    var at := Target(s.vno, count, s.size);
    TargetFits(s.vno, count, s.size);
    RegionFits(at, count, s.size);
    forall j | 0 <= j < |t.open|
      ensures Fits(OpenAt(t.open[j], s.size), t.open[j].count, s.size, t.vno % s.size)
      ensures OpenAt(t.open[j], s.size) in t.heads && t.heads[OpenAt(t.open[j], s.size)] == t.open[j].head
    {
      if j < |s.open| {
        assert t.open[j] == s.open[j];
        CursorFits(OpenAt(s.open[j], s.size), s.open[j].count, s.size, at, count);
      }
    }
    forall j, m | 0 <= j < |rs| && 0 <= m < |t.open|
      ensures Apart(rs[j].key, rs[j].val.count, OpenAt(t.open[m], s.size), t.open[m].count)
    {
      assert rs[j] == s.blocks[if j < i then j else j - i + k];
    }
  }

  lemma {:induction false} RegionFits(t: nat, n: nat, size: nat)
    requires 0 < n && size > 0 && t % size + n <= size
    ensures Fits(t % size, n, size, (t + n) % size)
  {
    CursorAfter(t, n, size);
  }

  lemma {:induction false} CreatedKeys(s: State, count: nat, head: Head, rs: seq<Block>, r: seq<Key>, i: nat, k: nat, hash: nat -> nat)
    requires s.size > 0 && 0 < count <= s.size && KeysOk(s, hash) && head.hash == hash(head.name)
    requires Evicted(s.blocks, s.keys, s.size, i, k, rs, r)
    requires var start := Target(s.vno, count, s.size) % s.size;
             forall j | 0 <= j < |s.blocks| :: i <= j < k <==> start <= s.blocks[j].key < start + count
    ensures KeysOk(Created(s, count, head, rs, r), hash)
    ensures KeysSpared(s.keys, r, s.size, Target(s.vno, count, s.size) % s.size, Target(s.vno, count, s.size) % s.size + count)
  {
    hide Sorted;
    var t, start := Created(s, count, head, rs, r), Target(s.vno, count, s.size) % s.size;
    forall x | x in s.keys
      ensures (forall j | i <= j < k :: KeyAt(x, s.size) != s.blocks[j].key) <==> !(start <= KeyAt(x, s.size) < start + count)
    {
      var m :| 0 <= m < |s.keys| && s.keys[m] == x;
      assert KeyAgrees(s.blocks, s.heads, s.size, s.keys[m]);
      var b :| b in s.blocks && b.key == KeyAt(s.keys[m], s.size) && b.val.count == s.keys[m].val.count;
      var j :| 0 <= j < |s.blocks| && s.blocks[j] == b;
      assert i <= j < k <==> start <= b.key < start + count;
    }
    CreatedAgree(s, count, head, rs, r, i, k, hash);
  }

  lemma {:induction false} SparedBlock(s: State, rs: seq<Block>, i: nat, k: nat, start: nat, end: nat, no: nat, count: nat)
    requires i <= k <= |s.blocks| && rs == s.blocks[..i] + s.blocks[k..] && !(start <= no < end)
    requires forall j | 0 <= j < |s.blocks| :: i <= j < k <==> start <= s.blocks[j].key < end
    requires exists b | b in s.blocks :: b.key == no && b.val.count == count
    ensures exists b | b in rs :: b.key == no && b.val.count == count
  {
    var b :| b in s.blocks && b.key == no && b.val.count == count;
    var j :| 0 <= j < |s.blocks| && s.blocks[j] == b;
    assert b == if j < i then rs[j] else rs[j - k + i];
    assert b in rs;
  }

  lemma {:induction false} KeptKey(s: State, hash: nat -> nat, r: seq<Key>, a: nat) returns (m: nat)
    requires s.size > 0 && a < |r| && r[a] in s.keys
    ensures m < |s.keys| && s.keys[m] == r[a]
  {
    m :| 0 <= m < |s.keys| && s.keys[m] == r[a];
  }

  lemma {:induction false} CreatedAgree(s: State, count: nat, head: Head, rs: seq<Block>, r: seq<Key>, i: nat, k: nat, hash: nat -> nat)
    requires s.size > 0 && 0 < count <= s.size && KeysOk(s, hash) && head.hash == hash(head.name)
    requires Evicted(s.blocks, s.keys, s.size, i, k, rs, r)
    requires var start := Target(s.vno, count, s.size) % s.size;
             forall j | 0 <= j < |s.blocks| :: i <= j < k <==> start <= s.blocks[j].key < start + count
    requires var start := Target(s.vno, count, s.size) % s.size; KeysSpared(s.keys, r, s.size, start, start + count)
    ensures KeysOk(Created(s, count, head, rs, r), hash)
  {
    hide Sorted;
    hide Target;
    var t, start := Created(s, count, head, rs, r), Target(s.vno, count, s.size) % s.size;
    forall a | 0 <= a < |r|
      ensures KeyAgrees(rs, t.heads, s.size, r[a])
    {
      assert r[a] in r;
      var m := KeptKey(s, hash, r, a);
      assert KeyAgrees(s.blocks, s.heads, s.size, s.keys[m]);
      SparedBlock(s, rs, i, k, start, start + count, KeyAt(r[a], s.size), r[a].val.count);
    }
    forall a, b | 0 <= a < b < |r| ensures Name(t, a) != Name(t, b) {
      assert r[a] in r && r[b] in r && KeyAt(r[a], s.size) != KeyAt(r[b], s.size);
      var m := KeptKey(s, hash, r, a);
      var n := KeptKey(s, hash, r, b);
      assert Name(s, m) != Name(s, n);
    }
    assert Agree(rs, r, t.heads, s.size);
    assert forall no | no in t.heads :: t.heads[no].hash == hash(t.heads[no].name);
    assert Sorted(r);
  }

  // ---- closing

  function Without(open: seq<Reserved>, j: nat): seq<Reserved>
    requires j < |open|
  {
    open[..j] + open[j + 1..]
  }

  /** The state after object `j` was closed, given the new trees. */
  function Closed(s: State, j: nat, i: nat, xid: nat, r: seq<Key>): State
    requires s.size > 0 && j < |s.open| && i <= |s.blocks|
  {
    var o := s.open[j];
    s.(blocks := With(s.blocks, i, Item(OpenAt(o, s.size), Extent(o.count, xid))), keys := r, open := Without(s.open, j))
  }

  lemma {:induction false} WithoutOk(s: State, j: nat)
    requires s.size > 0 && j < |s.open| && OpenOk(s)
    ensures OpenOk(s.(open := Without(s.open, j)))
  {
    var t := Without(s.open, j);
    assert forall m | 0 <= m < |t| :: t[m] == s.open[if m < j then m else m + 1];
  }

  lemma {:induction false} ClosedBlocks(s: State, j: nat, i: nat, xid: nat, r: seq<Key>)
    requires s.size > 0 && j < |s.open| && i <= |s.blocks| && BlocksOk(s) && OpenOk(s)
    requires (forall m | 0 <= m < i :: s.blocks[m].key < OpenAt(s.open[j], s.size))
    requires forall m | i <= m < |s.blocks| :: s.blocks[m].key >= OpenAt(s.open[j], s.size)
    ensures BlocksOk(Closed(s, j, i, xid, r))
  {
    var t, o := Closed(s, j, i, xid, r), s.open[j];
    var b := Item(OpenAt(o, s.size), Extent(o.count, xid));
    assert forall m | 0 <= m < |t.blocks| :: t.blocks[m] == if m < i then s.blocks[m] else if m == i then b else s.blocks[m - 1];
    forall m | 0 <= m < |s.blocks| ensures s.blocks[m].key + s.blocks[m].val.count <= b.key || b.key + b.val.count <= s.blocks[m].key {
      assert Apart(s.blocks[m].key, s.blocks[m].val.count, OpenAt(o, s.size), o.count);
    }
  }

  lemma {:induction false} ClosedOpen(s: State, j: nat, i: nat, xid: nat, r: seq<Key>)
    requires s.size > 0 && j < |s.open| && i <= |s.blocks| && OpenOk(s)
    ensures OpenOk(Closed(s, j, i, xid, r))
  {
    var t, o := Closed(s, j, i, xid, r), s.open[j];
    var b := Item(OpenAt(o, s.size), Extent(o.count, xid));
    WithoutOk(s, j);
    assert forall m | 0 <= m < |t.blocks| :: t.blocks[m] == if m < i then s.blocks[m] else if m == i then b else s.blocks[m - 1];
    assert forall m | 0 <= m < |t.open| :: t.open[m] == s.open[if m < j then m else m + 1];
  }

  /** The key entry in place of the one of the same key, if `hit`, or as a new one. */
  function WithKey(ks: seq<Key>, at: nat, key: Key, hit: bool): seq<Key>
    requires at <= |ks| && (hit ==> at < |ks|)
  {
    if hit then ks[at := key] else ks[..at] + [key] + ks[at..]
  }

  lemma {:induction false} WithKeySorted(ks: seq<Key>, at: nat, key: Key, hit: bool)
    requires Sorted(ks) && at <= |ks|
    requires if hit then at < |ks| && ks[at].key == key.key
             else (forall i | 0 <= i < at :: ks[i].key <= key.key) && (forall i | at <= i < |ks| :: key.key <= ks[i].key)
    ensures Sorted(WithKey(ks, at, key, hit))
  {
    var r := WithKey(ks, at, key, hit);
    if !hit {
      assert forall i | 0 <= i < |r| :: r[i] == if i < at then ks[i] else if i == at then key else ks[i - 1];
    }
  }

  /** Where entry `i` of the new key tree was before. */
  function Was(i: nat, at: nat, hit: bool): int {
    if hit || i < at then i else i - 1
  }

  lemma {:induction false} ClosedKeys(s: State, j: nat, i: nat, xid: nat, at: nat, hit: bool, hash: nat -> nat)
    requires Sound(s, hash) && j < |s.open| && i <= |s.blocks| && at <= |s.keys|
    requires var name := s.open[j].head.name;
             if hit then at < |s.keys| && s.keys[at].key == hash(name) && Name(s, at) == name
             else (forall m | 0 <= m < |s.keys| :: Name(s, m) != name)
                  && (forall m | 0 <= m < at :: s.keys[m].key <= hash(name)) && (forall m | at <= m < |s.keys| :: hash(name) <= s.keys[m].key)
    ensures var o := s.open[j];
            KeysOk(Closed(s, j, i, xid, WithKey(s.keys, at, Item(hash(o.head.name), Spot(o.vno, o.count)), hit)), hash)
  {
    hide Sorted;
    hide BlocksOk;
    hide Agree;
    var o := s.open[j];
    var key := Item(hash(o.head.name), Spot(o.vno, o.count));
    var r := WithKey(s.keys, at, key, hit);
    var t := Closed(s, j, i, xid, r);
    WithKeySorted(s.keys, at, key, hit);
    forall m | 0 <= m < |r|
      ensures m != at ==> 0 <= Was(m, at, hit) < |s.keys| && r[m] == s.keys[Was(m, at, hit)] && KeyAt(r[m], s.size) != OpenAt(o, s.size)
      ensures KeyAgrees(t.blocks, s.heads, s.size, r[m])
    {
      ClosedKey(s, j, i, xid, at, hit, hash, m);
    }
    ClosedNames(s, t, j, at, hit, hash, key);
    MakeAgree(t.blocks, r, s.heads, s.size);
  }

  lemma {:induction false} MakeAgree(bs: seq<Block>, ks: seq<Key>, heads: map<nat, Head>, size: nat)
    requires size > 0 && (forall i | 0 <= i < |ks| :: KeyAgrees(bs, heads, size, ks[i]))
    requires forall i, j | 0 <= i < j < |ks| :: KeyAt(ks[i], size) != KeyAt(ks[j], size)
    ensures Agree(bs, ks, heads, size)
  {
  }

  lemma {:induction false} OldKey(s: State, hash: nat -> nat, j: nat, i: nat, b: Block, m: nat)
    requires Sound(s, hash) && j < |s.open| && i <= |s.blocks| && m < |s.keys|
    ensures KeyAgrees(With(s.blocks, i, b), s.heads, s.size, s.keys[m]) && KeyAt(s.keys[m], s.size) != OpenAt(s.open[j], s.size)
  {
    hide Sorted;
    hide BlocksOk;
    hide OpenOk;
    assert KeyAgrees(s.blocks, s.heads, s.size, s.keys[m]);
    var x :| x in s.blocks && x.key == KeyAt(s.keys[m], s.size) && x.val.count == s.keys[m].val.count;
    var n :| 0 <= n < |s.blocks| && s.blocks[n] == x;
    BlockElsewhere(s, n, j);
    assert x == With(s.blocks, i, b)[if n < i then n else n + 1];
  }

  lemma {:induction false} ClosedKey(s: State, j: nat, i: nat, xid: nat, at: nat, hit: bool, hash: nat -> nat, m: nat)
    requires Sound(s, hash) && j < |s.open| && i <= |s.blocks| && at <= |s.keys| && (hit ==> at < |s.keys|)
    requires m < |WithKey(s.keys, at, Item(hash(s.open[j].head.name), Spot(s.open[j].vno, s.open[j].count)), hit)|
    ensures var o := s.open[j];
            var r := WithKey(s.keys, at, Item(hash(o.head.name), Spot(o.vno, o.count)), hit);
            && (m != at ==> 0 <= Was(m, at, hit) < |s.keys| && r[m] == s.keys[Was(m, at, hit)] && KeyAt(r[m], s.size) != OpenAt(o, s.size))
            && KeyAgrees(With(s.blocks, i, Item(OpenAt(o, s.size), Extent(o.count, xid))), s.heads, s.size, r[m])
  {
    hide Sorted;
    hide BlocksOk;
    hide Agree;
    var o := s.open[j];
    var b := Item(OpenAt(o, s.size), Extent(o.count, xid));
    if m == at {
      assert With(s.blocks, i, b)[i] == b;
    } else {
      OldKey(s, hash, j, i, b, Was(m, at, hit));
    }
  }

  lemma {:induction false} BlockElsewhere(s: State, m: nat, j: nat)
    requires s.size > 0 && BlocksOk(s) && OpenOk(s) && m < |s.blocks| && j < |s.open|
    ensures s.blocks[m].key != OpenAt(s.open[j], s.size)
  {
    assert Apart(s.blocks[m].key, s.blocks[m].val.count, OpenAt(s.open[j], s.size), s.open[j].count);
  }

  lemma {:induction false} ClosedNames(s: State, t: State, j: nat, at: nat, hit: bool, hash: nat -> nat, key: Key)
    requires s.size > 0 && t.size == s.size && t.heads == s.heads && KeysOk(s, hash) && j < |s.open| && at <= |s.keys|
    requires OpenOk(s) && key.val.vno == s.open[j].vno
    requires if hit then at < |s.keys| && Name(s, at) == s.open[j].head.name else forall m | 0 <= m < |s.keys| :: Name(s, m) != s.open[j].head.name
    requires t.keys == WithKey(s.keys, at, key, hit)
    requires forall m | 0 <= m < |t.keys| && m != at ::
               0 <= Was(m, at, hit) < |s.keys| && t.keys[m] == s.keys[Was(m, at, hit)] && KeyAt(t.keys[m], s.size) != OpenAt(s.open[j], s.size)
    ensures forall x, y | 0 <= x < y < |t.keys| :: Name(t, x) != Name(t, y) && KeyAt(t.keys[x], s.size) != KeyAt(t.keys[y], s.size)
  {
    assert t.keys[at] == key && Name(t, at) == s.open[j].head.name;
    forall x, y | 0 <= x < y < |t.keys| ensures Name(t, x) != Name(t, y) && KeyAt(t.keys[x], s.size) != KeyAt(t.keys[y], s.size) {
      var a, b := Was(x, at, hit), Was(y, at, hit);
      if x != at {
        assert Name(t, x) == Name(s, a);
      }
      if y != at {
        assert Name(t, y) == Name(s, b);
      }
      if x != at && y != at {
        assert a < b;
      } else if hit {
        assert a < b;
      }
    }
  }

  lemma {:induction false} DiscardSound(s: State, hash: nat -> nat, j: nat)
    requires Sound(s, hash) && j < |s.open|
    ensures Sound(s.(open := Without(s.open, j)), hash)
  {
    hide OpenOk;
    hide Agree;
    hide Sorted;
    WithoutOk(s, j);
    var t := s.(open := Without(s.open, j));
    assert forall i | 0 <= i < |s.keys| :: Name(t, i) == Name(s, i);
  }

  lemma {:induction false} CreateReady(s: State, hash: nat -> nat, count: nat)
    requires Sound(s, hash) && 0 < count <= s.size
    ensures SortedBlocks(s.blocks) && Uncut(s.blocks, Target(s.vno, count, s.size) % s.size) && Sorted(s.keys)
    ensures Agree(s.blocks, s.keys, s.heads, s.size) && forall j | 0 <= j < |s.blocks| :: s.blocks[j].key in s.heads
  {
    CreatedUncut(s, count);
  }

  lemma {:induction false} OutsideRegion(bs: seq<Block>, i: nat, k: nat, start: nat, end: nat, vno: nat, size: nat)
    requires forall j | 0 <= j < |bs| :: i <= j < k <==> start <= bs[j].key < end
    requires Uncut(bs, start)
    ensures forall j | 0 <= j < |bs| && !(i <= j < k) :: !Overlap(bs[j].key, bs[j].val.count, start, end)
  {
  }

  lemma {:induction false} CreateSound(s: State, hash: nat -> nat, count: nat, head: Head, rs: seq<Block>, r: seq<Key>, i: nat, k: nat)
    requires Sound(s, hash) && 0 < count <= s.size && LockFree(s, count) && head.hash == hash(head.name)
    requires Evicted(s.blocks, s.keys, s.size, i, k, rs, r)
    requires var start := Target(s.vno, count, s.size) % s.size;
             forall j | 0 <= j < |s.blocks| :: i <= j < k <==> start <= s.blocks[j].key < start + count
    ensures Sound(Created(s, count, head, rs, r), hash)
    ensures var start := Target(s.vno, count, s.size) % s.size;
            && KeysSpared(s.keys, r, s.size, start, start + count)
            && forall j | 0 <= j < |rs| :: !Overlap(rs[j].key, rs[j].val.count, start, start + count)
  {
    hide BlocksOk;
    hide OpenOk;
    hide KeysOk;
    hide Uncut;
    hide KeysSpared;
    hide Target;
    hide LockFree;
    hide Sorted;
    var start := Target(s.vno, count, s.size) % s.size;
    CreatedUncut(s, count);
    OutsideRegion(s.blocks, i, k, start, start + count, s.vno, s.size);
    CreatedBlocks(s, count, head, rs, r, i, k);
    CreatedOpen(s, count, head, rs, r, i, k);
    CreatedKeys(s, count, head, rs, r, i, k, hash);
  }

  lemma {:induction false} CloseReady(s: State, hash: nat -> nat, j: nat)
    requires Sound(s, hash) && j < |s.open|
    ensures s.size > 0 && SortedBlocks(s.blocks) && KeysOk(s, hash)
    ensures forall i | 0 <= i < |s.keys| :: KeyAt(s.keys[i], s.size) in s.heads
  {
  }

  lemma {:induction false} CloseSound(s: State, hash: nat -> nat, j: nat, i: nat, xid: nat, at: nat, hit: bool)
    requires Sound(s, hash) && j < |s.open| && i <= |s.blocks| && at <= |s.keys|
    requires (forall m | 0 <= m < i :: s.blocks[m].key < OpenAt(s.open[j], s.size))
    requires forall m | i <= m < |s.blocks| :: s.blocks[m].key >= OpenAt(s.open[j], s.size)
    requires var name := s.open[j].head.name;
             if hit then at < |s.keys| && s.keys[at].key == hash(name) && Name(s, at) == name
             else (forall m | 0 <= m < |s.keys| :: Name(s, m) != name)
                  && (forall m | 0 <= m < at :: s.keys[m].key <= hash(name)) && (forall m | at <= m < |s.keys| :: hash(name) <= s.keys[m].key)
    ensures var o := s.open[j];
            var t := Closed(s, j, i, xid, WithKey(s.keys, at, Item(hash(o.head.name), Spot(o.vno, o.count)), hit));
            && Sound(t, hash)
            && multiset(t.blocks) == multiset(s.blocks) + multiset{Item(OpenAt(o, s.size), Extent(o.count, xid))}
            && Item(hash(o.head.name), Spot(o.vno, o.count)) in t.keys
            && (forall m | 0 <= m < |t.keys| && Name(t, m) == o.head.name :: t.keys[m].val.vno == o.vno)
            && (forall x | x in s.keys && KeyAt(x, s.size) in s.heads && s.heads[KeyAt(x, s.size)].name != o.head.name :: x in t.keys)
  {
    hide BlocksOk;
    hide KeysOk;
    hide OpenOk;
    var o := s.open[j];
    var key := Item(hash(o.head.name), Spot(o.vno, o.count));
    var t := Closed(s, j, i, xid, WithKey(s.keys, at, key, hit));
    ClosedBlocks(s, j, i, xid, t.keys);
    ClosedOpen(s, j, i, xid, t.keys);
    ClosedKeys(s, j, i, xid, at, hit, hash);
    assert s.blocks == s.blocks[..i] + s.blocks[i..];
    ClosedLookup(s, t, hash, j, at, hit, key);
  }

  lemma {:induction false} ClosedLookup(s: State, t: State, hash: nat -> nat, j: nat, at: nat, hit: bool, key: Key)
    requires s.size > 0 && t.size == s.size && t.heads == s.heads && OpenOk(s) && j < |s.open| && at <= |s.keys|
    requires (hit ==> at < |s.keys| && Name(s, at) == s.open[j].head.name) && t.keys == WithKey(s.keys, at, key, hit)
    requires key.val.vno == s.open[j].vno && KeysOk(t, hash)
    ensures key in t.keys
    ensures forall m | 0 <= m < |t.keys| && Name(t, m) == s.open[j].head.name :: t.keys[m].val.vno == key.val.vno
    ensures forall x | x in s.keys && KeyAt(x, s.size) in s.heads && s.heads[KeyAt(x, s.size)].name != s.open[j].head.name :: x in t.keys
  {
    assert t.keys[at] == key && Name(t, at) == s.open[j].head.name;
    assert forall m | 0 <= m < |t.keys| && Name(t, m) == Name(t, at) :: m == at;
    forall x | x in s.keys && KeyAt(x, s.size) in s.heads && s.heads[KeyAt(x, s.size)].name != s.open[j].head.name ensures x in t.keys {
      var m :| 0 <= m < |s.keys| && s.keys[m] == x;
      assert x == t.keys[if hit || m < at then m else m + 1];
    }
  }

  /** Then the keys are those of other objects and the new one, and no others. */
  lemma {:induction false} ClosedExact(s: State, t: State, hash: nat -> nat, key: Key, name: nat, at: nat, hit: bool)
    requires Sound(s, hash) && Sound(t, hash) && t.size == s.size && t.heads == s.heads
    requires at <= |s.keys| && (hit ==> at < |s.keys| && Name(s, at) == name) && t.keys == WithKey(s.keys, at, key, hit)
    requires forall m | 0 <= m < |t.keys| && Name(t, m) == name :: t.keys[m].val.vno == key.val.vno
    requires forall x | x in s.keys && KeyAt(x, s.size) in s.heads && s.heads[KeyAt(x, s.size)].name != name :: x in t.keys
    ensures |t.keys| == |s.keys| + (if hit then 0 else 1)
    ensures forall x :: x in t.keys <==> x == key || (x in s.keys && KeyAt(x, s.size) in s.heads && s.heads[KeyAt(x, s.size)].name != name)
  {
    hide BlocksOk;
    hide OpenOk;
    assert t.keys[at] == key;
    forall x | x in t.keys && x != key
      ensures x in s.keys && KeyAt(x, s.size) in s.heads && s.heads[KeyAt(x, s.size)].name != name
    {
      var m :| 0 <= m < |t.keys| && t.keys[m] == x;
      assert KeyAgrees(t.blocks, t.heads, t.size, t.keys[m]);
      assert KeyAt(t.keys[m], t.size) != KeyAt(t.keys[at], t.size);
    }
  }
}
