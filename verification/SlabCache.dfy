/** The cache over its slab (lib/cache.c ed_create, ed_close, ed_discard), with the two trees as rows of leaves. */
module SlabCache {
  import opened Slab
  import opened SlabWalk
  import BptTree
  import BptLeaf
  import opened Leaves

  // ---- when a reservation goes wrong

  lemma {:induction false} TrappedLast(row: seq<Node<Extent>>, l: Node<Extent>, start: nat, end: nat)
    requires forall i | 0 <= i < |row| :: row[i].items != []
    ensures Trapped(row + [l], start, end) <==> Trap(l, start, end) && forall i | 0 <= i < |row| :: Gone(row[i], start, end)
    decreases |row|
  {
    if row == [] {
      TrappedOne(l, start, end);
      assert row + [l] == [l];
    } else {
      TrappedLast(row[1..], l, start, end);
      assert (row + [l])[1..] == row[1..] + [l];
      assert (forall i | 0 <= i < |row| :: Gone(row[i], start, end)) <==>
             Gone(row[0], start, end) && forall i | 0 <= i < |row[1..]| :: Gone(row[1..][i], start, end) by {
        assert forall i | 0 < i < |row| :: row[i] == row[1..][i - 1];
      }
    }
  }

  lemma {:induction false} FlatOverlap(ls: seq<Node<Extent>>, start: nat, end: nat)
    ensures AllOverlap(Flat(ls), start, end) <==> forall p | 0 <= p < |ls| :: AllOverlap(ls[p].items, start, end)
  {
    if AllOverlap(Flat(ls), start, end) {
      forall p, q | 0 <= p < |ls| && 0 <= q < |ls[p].items| ensures Overlap(ls[p].items[q].key, ls[p].items[q].val.count, start, end) {
        ItemIn(ls, p, q);
      }
    } else {
      var i :| 0 <= i < |Flat(ls)| && !Overlap(Flat(ls)[i].key, Flat(ls)[i].val.count, start, end);
      var p, q := FlatFrom(ls, i);
      assert !AllOverlap(ls[p].items, start, end);
    }
  }

  /** In a tree without empty leaves a reservation goes wrong exactly when it overlaps everything. */
  lemma {:induction false} StuckFull(ls: seq<Node<Extent>>, order: nat, start: nat, end: nat)
    requires TreeOk(ls, order) && ls != [] && Uncut(Flat(ls), start) && forall p | 0 <= p < |ls| :: ls[p].items != []
    ensures Stuck(ls, start, end) <==> AllOverlap(Flat(ls), start, end)
  {
    hide Flat;
    hide Trap;
    hide Uncut;
    hide Trapped;
    hide AllOverlap;
    hide Place;
    hide Lower;
    var p := Place(ls, start);
    var q := Lower(ls[p].items, start);
    FirstLow(ls, order);
    PlaceIn(ls, start);
    FoundAt(ls, order, p, q, start);
    FlatOverlap(ls, start, end);
    TrappedLast(ls[p + 1..], if p > 0 then ls[0] else Rest(ls[0], q), start, end);
    OnlyFromStart(ls, p, q, start, end);
    assert forall r | p < r < |ls| :: ls[r] == ls[p + 1..][r - p - 1];
    RestTrap(ls[0], start, end);
    if p == 0 && q == 0 {
      assert ls[0].items[0..] == ls[0].items;
    }
  }

  /** Entries left of the region do not overlap it. */
  lemma {:induction false} OnlyFromStart(ls: seq<Node<Extent>>, p: nat, q: nat, start: nat, end: nat)
    requires p < |ls| && q <= |ls[p].items| && Uncut(Flat(ls), start) && forall r | 0 <= r < |ls| :: ls[r].items != []
    requires |Flat(ls[..p])| + q <= |Flat(ls)| && forall i | 0 <= i < |Flat(ls[..p])| + q :: Flat(ls)[i].key < start
    ensures AllOverlap(Flat(ls), start, end) ==> p == 0 && q == 0
    ensures p > 0 || q > 0 ==> !Trap(if p > 0 then ls[0] else Rest(ls[0], q), start, end)
  {
    if p > 0 || q > 0 {
      ItemIn(ls, 0, 0);
      assert ls[..0] == [];
      FlatNone<Extent>();
      if p > 0 {
        FlatAt(ls[..p], 0);
        assert ls[..p][..0] == [];
      }
    }
  }

  lemma {:induction false} RestTrap(l: Node<Extent>, start: nat, end: nat)
    requires l.items != []
    ensures AllOverlap(l.items, start, end) ==> Trap(Rest(l, 0), start, end)
  {
  }

  /** One object that fills the slab: the next reservation of as much goes wrong. */
  lemma {:induction false} FullTurn(hash: nat -> nat)
    ensures var ls := [Node(0, [Item(0, Extent(4, 1))], Item(0, Extent(4, 1)))];
            var s := State(4, 4, Flat(ls), [Item(hash(7), Spot(0, 4))], map[0 := Head(hash(7), 7)], []);
            Sound(s, hash) && LockFree(s, 4) && TreeOk(ls, 169) && Stuck(ls, Target(4, 4, 4) % 4, Target(4, 4, 4) % 4 + 4)
  {
    var l := Node(0, [Item(0, Extent(4, 1))], Item(0, Extent(4, 1)));
    FlatOne(l);
    StuckFull([l], 169, 0, 4);
  }

  /** Three leaves, the middle one emptied by an earlier reservation. */
  function ThreeLeaves(): seq<Node<Extent>> {
    var a, b := Item(0, Extent(260, 1)), Item(260, Extent(40, 2));
    [Node(0, [a], a), Node(84, [], Item(167, Extent(1, 0))), Node(168, [b], b)]
  }

  lemma {:induction false} ThreeFlat()
    ensures Flat(ThreeLeaves()) == [Item(0, Extent(260, 1)), Item(260, Extent(40, 2))]
  {
    hide Flat;
    var ls := ThreeLeaves();
    FlatAt(ls, 1);
    FlatOne(ls[0]);
    FlatOne(ls[2]);
    assert ls[..1] == [ls[0]] && ls[2..] == [ls[2]];
  }

  lemma {:induction false} ThreeOk()
    ensures TreeOk(ThreeLeaves(), 169)
  {
    var ls := ThreeLeaves();
    assert High(ls, 0) == BptTree.Some(84) && High(ls, 1) == BptTree.Some(168) && High(ls, 2) == BptTree.None;
    assert LeafOk(ls, 0, 169) && LeafOk(ls, 1, 169) && LeafOk(ls, 2, 169);
  }

  lemma {:induction false} ThreeStuck()
    ensures Stuck(ThreeLeaves(), 0, 200)
  {
    var ls := ThreeLeaves();
    assert Place(ls, 0) == 0 && Lower(ls[0].items, 0) == 0;
    assert Ahead(ls, 0, 0)[0] == ls[1];
  }

  lemma {:induction false} TwoSound(hash: nat -> nat)
    ensures var s := State(300, 300, [Item(0, Extent(260, 1)), Item(260, Extent(40, 2))], [], map[0 := Head(hash(1), 1), 260 := Head(hash(2), 2)], []);
            Sound(s, hash) && LockFree(s, 200) && !AllOverlap(s.blocks, 0, 200) && Target(s.vno, 200, s.size) % s.size == 0
  {
    var s := State(300, 300, [Item(0, Extent(260, 1)), Item(260, Extent(40, 2))], [], map[0 := Head(hash(1), 1), 260 := Head(hash(2), 2)], []);
    assert !Overlap(s.blocks[1].key, s.blocks[1].val.count, 0, 200);
  }

  /** On the emptied leaf the walk takes what the first slot still holds for an entry of the region, although not
      every entry overlaps it. */
  lemma {:induction false} EmptiedLeaf(hash: nat -> nat)
    ensures var ls := ThreeLeaves();
            var s := State(300, 300, Flat(ls), [], map[0 := Head(hash(1), 1), 260 := Head(hash(2), 2)], []);
            && Sound(s, hash) && LockFree(s, 200) && TreeOk(ls, 169) && Target(s.vno, 200, s.size) % s.size == 0
            && !AllOverlap(s.blocks, 0, 200) && Stuck(ls, 0, 200)
  {
    hide Sound;
    hide LockFree;
    hide Flat;
    hide ThreeLeaves;
    hide Stuck;
    hide TreeOk;
    hide AllOverlap;
    ThreeFlat();
    ThreeOk();
    ThreeStuck();
    TwoSound(hash);
  }

  // ---- when closing an object fails

  /** KeyMatch and Full are errors and leave the trees alone; Aborted is a failed assertion. */
  datatype CloseRc = Closed | KeyMatch | Full | Aborted

  /** How the key part of obj_upsert ends. */
  ghost function KeyEnd(kt: seq<Node<Spot>>, order: nat, heads: map<nat, Head>, size: nat, h: nat, name: nat): CloseRc
    requires size > 0 && order >= 2 && TreeOk(kt, order)
  {
    if kt == [] || exists i | 0 <= i < |Flat(kt)| :: Flat(kt)[i].key == h && Names(Flat(kt)[i], heads, size, name) then Closed
    else if SeatFor(kt, h).NoSeat? then KeyMatch
    else
      SeatOk(kt, order, h);
      var s := SeatFor(kt, h);
      match SetEnd(kt[s.p], order, s.q, s.nm, h)
      case Done => Closed
      case DupKey => Full
      case Torn => Aborted
  }

  /** An object under a key that is known, and the first object, are never refused. */
  lemma {:induction false} KnownKey(kt: seq<Node<Spot>>, order: nat, heads: map<nat, Head>, size: nat, h: nat, name: nat)
    requires size > 0 && order >= 2 && TreeOk(kt, order)
    ensures kt == [] || (exists x | x in Flat(kt) :: x.key == h && x.val.vno % size in heads && heads[x.val.vno % size].name == name) ==>
              KeyEnd(kt, order, heads, size, h, name) == Closed
  {
    hide Flat;
    hide TreeOk;
    hide SeatFor;
    hide SetEnd;
    if x :| x in Flat(kt) && x.key == h && x.val.vno % size in heads && heads[x.val.vno % size].name == name {
      var i :| 0 <= i < |Flat(kt)| && Flat(kt)[i] == x;
      assert Names(Flat(kt)[i], heads, size, name);
    }
  }

  /** A hash no other object has is refused only by a leaf full of one hash. */
  lemma {:induction false} NewHash(kt: seq<Node<Spot>>, order: nat, heads: map<nat, Head>, size: nat, h: nat, name: nat)
    requires size > 0 && order >= 2 && TreeOk(kt, order) && forall i | 0 <= i < |Flat(kt)| :: Flat(kt)[i].key != h
    ensures KeyEnd(kt, order, heads, size, h, name) ==
            if kt != [] && |kt[Place(kt, h)].items| == order && OneKey(kt[Place(kt, h)].items) then Full else Closed
  {
    hide Flat;
    hide TreeOk;
    hide Place;
    hide Lower;
    hide SetEnd;
    hide OneKey;
    if kt != [] {
      var p := Place(kt, h);
      var q := Lower(kt[p].items, h);
      FirstLow(kt, order);
      PlaceIn(kt, h);
      LeafSorted(kt, order, p);
      if q < |kt[p].items| {
        ItemIn(kt, p, q);
      }
      SetEndNew(kt[p], order, q, h);
    }
  }

  /** A full leaf is cut right behind the `n` entries of hash `h` from `q` on, or between entries of one hash. */
  predicate CutBehind(items: seq<Key>, q: nat, n: nat, h: nat)
    requires |items| >= 2 && 0 < n && q + n < |items|
  {
    var c := BptLeaf.SplitPoint(Leaves.Keys(items), h, q + n, n);
    c.Some? && (c.value == q + n || (BptLeaf.Misplaced(|items|, q, n, q + n) && 0 < c.value < |items| && items[c.value - 1].key == items[c.value].key))
  }

  /** A hash that only other objects have fits behind them in their leaf, unless a full leaf would be cut there or
      between equals. If they end their leaf it is refused, but in a tree of one leaf of that hash only. */
  lemma {:induction false} SameHash(kt: seq<Node<Spot>>, order: nat, heads: map<nat, Head>, size: nat, h: nat, name: nat)
    requires size > 0 && order >= 2 && TreeOk(kt, order) && kt != []
    requires forall i | 0 <= i < |Flat(kt)| && Flat(kt)[i].key == h :: !Names(Flat(kt)[i], heads, size, name)
    requires var items := kt[Place(kt, h)].items; Run(items, Lower(items, h), h) > 0
    ensures var items := kt[Place(kt, h)].items;
            var q := Lower(items, h);
            var n := Run(items, q, h);
            KeyEnd(kt, order, heads, size, h, name) ==
              if q + n < |items| then (if |items| == order && CutBehind(items, q, n, h) then Aborted else Closed)
              else if |kt| > 1 || q > 0 then KeyMatch
              else if |items| == order then Full else Closed
  {
    hide Flat;
    hide TreeOk;
    hide Place;
    hide Lower;
    hide Run;
    hide Names;
    hide CutBehind;
    hide SetEnd;
    var p := Place(kt, h);
    var items := kt[p].items;
    var q := Lower(items, h);
    var n := Run(items, q, h);
    LeafSorted(kt, order, p);
    if q + n < |items| {
      assert q + n > 0 && items[q].key <= items[q + n].key;
      EndBehind(kt[p], order, h, q, n);
    } else if |kt| == 1 && q == 0 {
      EndOnly(kt[p], order, h);
    }
  }

  lemma {:induction false} EndBehind(l: Node<Spot>, order: nat, h: nat, q: nat, n: nat)
    requires order >= 2 && |l.items| <= order && Sorted(l.items) && 0 < n && q + n < |l.items| && l.items[q + n].key > h
    requires (forall i | 0 <= i < q :: l.items[i].key < h) && forall i | q <= i < q + n :: l.items[i].key == h
    ensures SetEnd(l, order, q + n, n, h) == if |l.items| == order && CutBehind(l.items, q, n, h) then Torn else Done
  {
    hide Leaves.Keys;
    hide BptLeaf.SplitPoint;
    hide BptLeaf.Misplaced;
    hide BptLeaf.AllEqual;
    if |l.items| == order {
      RunEntries(l.items, h, q, n);
      SetEndBehind(l, order, q, n, h);
    }
  }

  lemma {:induction false} EndOnly(l: Node<Spot>, order: nat, h: nat)
    requires order >= 2 && 0 < |l.items| <= order && Sorted(l.items) && forall i | 0 <= i < |l.items| :: l.items[i].key == h
    ensures SetEnd(l, order, 0, 1, h) == if |l.items| == order then DupKey else Done
  {
    hide BptLeaf.SplitPoint;
    if |l.items| == order {
      KeysSorted(l.items);
      BptLeaf.SplitPointCorrect(Leaves.Keys(l.items), h, 0, 1);
    }
  }

  lemma {:induction false} RunEntries(items: seq<Key>, h: nat, q: nat, n: nat)
    requires Sorted(items) && q + n < |items| && (forall i | 0 <= i < q :: items[i].key < h) && (forall i | q <= i < q + n :: items[i].key == h)
    requires items[q + n].key > h
    ensures BptLeaf.RunAt(Leaves.Keys(items), h, q, n)
  {
    AboveFrom(items, q + n, h);
  }

  /** An object at the end of a leaf: another of its hash is refused. */
  lemma {:induction false} EndOfLeaf(heads: map<nat, Head>)
    requires heads.Keys == {0, 1} && heads[0].name == 0 && heads[1].name == 1
    ensures var kt := [Node(0, [Item(4, Spot(0, 1)), Item(5, Spot(1, 1))], Item(4, Spot(0, 1)))];
            TreeOk(kt, 8) && KeyEnd(kt, 8, heads, 2, 5, 7) == KeyMatch
  {
    var items := [Item(4, Spot(0, 1)), Item(5, Spot(1, 1))];
    var l := Node(0, items, items[0]);
    assert LeafOk([l], 0, 8);
    FlatOne(l);
    assert Lower(items, 5) == 1 && Run(items, 1, 5) == 1;
    SameHash([l], 8, heads, 2, 5, 7);
  }

  // ---- closing, on the trees

  /** The block part of obj_upsert: a new block number always fits. */
  method PutBlock(bt: seq<Node<Extent>>, order: nat, b: Block, raise: bool) returns (t: seq<Node<Extent>>, ghost i: nat)
    requires order >= 2 && TreeOk(bt, order) && SortedBlocks(Flat(bt))
    requires forall m | 0 <= m < |Flat(bt)| :: Flat(bt)[m].val.count > 0 && Flat(bt)[m].key != b.key
    ensures TreeOk(t, order) && i <= |Flat(bt)| && Flat(t) == With(Flat(bt), i, b)
    ensures (forall m | 0 <= m < i :: Flat(bt)[m].key < b.key) && (forall m | i <= m < |Flat(bt)| :: Flat(bt)[m].key >= b.key)
  {
    hide Flat;
    hide TreeOk;
    hide Place;
    hide Lower;
    hide SetEnd;
    hide SortedBlocks;
    if bt == [] {
      t, i := [Node(0, [b], b)], 0;
      FirstEntry(b, order);
      return;
    }
    FirstLow(bt, order);
    PlaceIn(bt, b.key);
    var p := Place(bt, b.key);
    var q := Lower(bt[p].items, b.key);
    i := |Flat(bt[..p])| + q;
    FoundAt(bt, order, p, q, b.key);
    LeafSorted(bt, order, p);
    BlocksDiffer(bt, p, q, b.key, order);
    SetEndNew(bt[p], order, q, b.key);
    var rc;
    rc, t := Put(bt, order, p, q, 0, b, raise && p > 0);
  }

  lemma {:induction false} FirstEntry<V>(e: Item<V>, order: nat)
    requires order >= 2
    ensures TreeOk([Node(0, [e], e)], order) && Flat<V>([]) == [] && Flat([Node(0, [e], e)]) == With([], 0, e)
  {
  }

  lemma {:induction false} BlocksDiffer(bt: seq<Node<Extent>>, p: nat, q: nat, key: nat, order: nat)
    requires p < |bt| && q <= |bt[p].items| && SortedBlocks(Flat(bt)) && order >= 2
    requires forall m | 0 <= m < |Flat(bt)| :: Flat(bt)[m].val.count > 0 && Flat(bt)[m].key != key
    ensures (q < |bt[p].items| ==> bt[p].items[q].key != key) && (|bt[p].items| == order ==> !OneKey(bt[p].items))
  {
    hide Flat;
    if q < |bt[p].items| {
      ItemIn(bt, p, q);
    }
    if |bt[p].items| == order {
      ItemIn(bt, p, 0);
      ItemIn(bt, p, 1);
    }
  }

  /** The key part: in place of the entry of the same key, or at the seat of its hash. */
  method PutKey(kt: seq<Node<Spot>>, order: nat, heads: map<nat, Head>, size: nat, k: Key, name: nat, raise: bool)
    returns (rc: CloseRc, t: seq<Node<Spot>>, ghost at: nat, ghost hit: bool)
    requires size > 0 && order >= 2 && TreeOk(kt, order) && forall i | 0 <= i < |Flat(kt)| :: KeyAt(Flat(kt)[i], size) in heads
    ensures rc == KeyEnd(kt, order, heads, size, k.key, name)
    ensures rc == Closed ==>
              && TreeOk(t, order) && at <= |Flat(kt)| && (hit ==> at < |Flat(kt)|) && Flat(t) == WithKey(Flat(kt), at, k, hit)
              && (if hit then Flat(kt)[at].key == k.key && Names(Flat(kt)[at], heads, size, name)
                  else (forall i | 0 <= i < at :: Flat(kt)[i].key <= k.key) && (forall i | at <= i < |Flat(kt)| :: Flat(kt)[i].key >= k.key)
                       && forall i | 0 <= i < |Flat(kt)| && Flat(kt)[i].key == k.key :: !Names(Flat(kt)[i], heads, size, name))
  {
    hide Flat;
    hide TreeOk;
    hide SetEnd;
    hide KeyAt;
    hide Names;
    hide SeatFor;
    hide Replaced;
    t, at, hit := kt, 0, false;
    if kt == [] {
      t := [Node(0, [k], k)];
      FirstEntry(k, order);
      return Closed, t, at, hit;
    }
    var p, q, found;
    found, p, q := FindKey(kt, order, heads, size, k.key, name);
    if found {
      ItemIn(kt, p, q);
      ReplacedOk(kt, order, p, q, k, raise && p > 0);
      ReplacedFlat(kt, p, q, k, raise && p > 0);
      at, hit := |Flat(kt[..p])| + q, true;
      return Closed, kt[p := Replaced(kt[p], q, k, raise && p > 0)], at, hit;
    }
    var seat := SeatFor(kt, k.key);
    if seat.NoSeat? {
      return KeyMatch, t, at, hit;
    }
    SeatOk(kt, order, k.key);
    SeatOrder(kt, order, seat.p, seat.q, k.key);
    at := |Flat(kt[..seat.p])| + seat.q;
    var end;
    end, t := Put(kt, order, seat.p, seat.q, seat.nm, k, raise && seat.p > 0);
    rc := match end case Done => Closed case DupKey => Full case Torn => Aborted;
  }

  /** The cache's slab and the committed state of its trees. */
  class Cache {
    const size: nat
    const hash: nat -> nat
    /** Entries per leaf of the block tree and of the key tree. */
    const blockOrder: nat
    const keyOrder: nat
    var vno: nat
    var blockTree: seq<Node<Extent>>
    var keyTree: seq<Node<Spot>>
    var heads: map<nat, Head>
    var open: seq<Reserved>

    ghost function Blocks(): seq<Block>
      reads this
    {
      Flat(blockTree)
    }

    ghost function Keys(): seq<Key>
      reads this
    {
      Flat(keyTree)
    }

    ghost function View(): State
      reads this
    {
      State(size, vno, Blocks(), Keys(), heads, open)
    }

    ghost predicate Valid()
      reads this
    {
      blockOrder >= 2 && keyOrder >= 2 && TreeOk(blockTree, blockOrder) && TreeOk(keyTree, keyOrder) && Sound(View(), hash)
    }

    constructor (size: nat, hash: nat -> nat, blockOrder: nat, keyOrder: nat, vno: nat)
      requires size > 0 && blockOrder >= 2 && keyOrder >= 2
      ensures Valid() && blockTree == [] && keyTree == [] && open == [] && this.vno == vno
      ensures this.size == size && this.hash == hash && this.blockOrder == blockOrder && this.keyOrder == keyOrder
    {
      this.size, this.hash, this.blockOrder, this.keyOrder, this.vno := size, hash, blockOrder, keyOrder, vno;
      blockTree, keyTree, heads, open := [], [], map[], [];
    }

    /** ed_create and obj_reserve with the range lock granted at once: a region at the cursor, or at the start of
        the slab if it would stick out, freed of everything it overlaps. */
    method Create(count: nat, name: nat) returns (ok: bool)
      requires Valid() && 0 < count <= size && LockFree(View(), count)
      modifies `vno, `blockTree, `keyTree, `heads, `open
      ensures Valid()
      ensures var start := Target(old(vno), count, size) % size;
              && (ok <==> old(blockTree) == [] || !Stuck(old(blockTree), start, start + count))
              && (!ok ==> View() == old(View()))
              && (ok ==> Blocks() == Spared(old(Blocks()), start, start + count) && KeysSpared(old(Keys()), Keys(), size, start, start + count))
              && (ok ==> start + count <= size && forall i | 0 <= i < |Blocks()| :: !Overlap(Blocks()[i].key, Blocks()[i].val.count, start, start + count))
      ensures ok ==> vno == Target(old(vno), count, size) + count > old(vno)
      // exactly what overlaps is gone, and what named it; the region has its object's header
      ensures ok ==>
                var start := (vno - count) % size;
                && (forall x :: x in Blocks() <==> x in old(Blocks()) && !(x.key < start + count && start < x.key + x.val.count))
                && (forall k :: k in Keys() <==> k in old(Keys()) && !(start <= k.val.vno % size < start + count))
                && heads == old(heads)[start := Head(hash(name), name)]
      ensures ok && old(vno) % size + count <= size ==> vno == old(vno) + count
      ensures ok && old(vno) % size + count > size ==> vno == old(vno) + (size - old(vno) % size) + count && (vno - count) % size == 0
      ensures ok ==> open == old(open) + [Reserved(vno - count, count, Head(hash(name), name))]
    {
      hide Sound;
      hide Flat;
      hide TreeOk;
      hide Stuck;
      hide Spared;
      hide Evicted;
      hide Agree;
      hide Uncut;
      hide KeysSpared;
      hide SortedBlocks;
      ghost var s := View();
      TargetFits(vno, count, size);
      var t := if vno % size + count > size then vno + (size - vno % size) else vno;
      var start := t % size;
      CreateReady(s, hash, count);
      ghost var i, k;
      var bt, kt;
      ok, bt, kt, i, k := Evict(blockTree, keyTree, blockOrder, keyOrder, heads, size, start, start + count);
      if !ok {
        return;
      }
      var head := Head(hash(name), name);
      CreateSound(s, hash, count, head, Flat(bt), Flat(kt), i, k);
      SparedIs(s.blocks, start, start + count);
      SparedKeys(s.keys, Flat(kt), size, start, start + count);
      blockTree, keyTree, heads, vno, open := bt, kt, heads[start := head], t + count, open + [Reserved(t, count, head)];
    }

    /** ed_close of a written object: its block entry, and its key entry in place of an older object's. It fails,
        giving up the object, exactly as the key tree decides. */
    method Close(j: nat, xid: nat) returns (rc: CloseRc)
      requires Valid() && j < |open|
      modifies `blockTree, `keyTree, `open
      ensures Valid() && open == old(open)[..j] + old(open)[j + 1..]
      ensures var name := old(open)[j].head.name; rc == KeyEnd(old(keyTree), keyOrder, heads, size, hash(name), name)
      ensures var name := old(open)[j].head.name;
              old(keyTree) == [] || (exists x | x in old(Keys()) :: x.key == hash(name) && x.val.vno % size in heads && heads[x.val.vno % size].name == name) ==>
                rc == Closed
      ensures rc != Closed ==> blockTree == old(blockTree) && keyTree == old(keyTree)
      ensures rc == Closed ==>
                var o := old(open)[j];
                && multiset(Blocks()) == multiset(old(Blocks())) + multiset{Item(OpenAt(o, size), Extent(o.count, xid))}
                && Item(hash(o.head.name), Spot(o.vno, o.count)) in Keys()
                && (forall i | 0 <= i < |Keys()| && Name(View(), i) == o.head.name :: Keys()[i].val.vno == o.vno)
                && (forall x :: x in Keys() <==>
                      || x == Item(hash(o.head.name), Spot(o.vno, o.count))
                      || (x in old(Keys()) && x.val.vno % size in heads && heads[x.val.vno % size].name != o.head.name))
                && |Keys()| <= |old(Keys())| + 1
    {
      hide Sound;
      hide Flat;
      hide TreeOk;
      hide KeyEnd;
      hide SortedBlocks;
      hide Name;
      hide Names;
      ghost var s := View();
      var o := open[j];
      CloseReady(s, hash, j);
      CloseBlocks(s, hash, j);
      KnownKey(keyTree, keyOrder, heads, size, hash(o.head.name), o.head.name);
      var raise, raiseKey := *, *;
      ghost var i, at, hit;
      var bt, kt;
      bt, i := PutBlock(blockTree, blockOrder, Item(o.vno % size, Extent(o.count, xid)), raise);
      var key := Item(hash(o.head.name), Spot(o.vno, o.count));
      rc, kt, at, hit := PutKey(keyTree, keyOrder, heads, size, key, o.head.name, raiseKey);
      DiscardSound(s, hash, j);
      open := open[..j] + open[j + 1..];
      if rc != Closed {
        return;
      }
      CloseNames(s, hash, j, at, hit);
      CloseSound(s, hash, j, i, xid, at, hit);
      blockTree, keyTree := bt, kt;
      ClosedExact(s, View(), hash, key, o.head.name, at, hit);
    }

    /** ed_discard, or ed_close of an object not written to its end. */
    method Discard(j: nat)
      requires Valid() && j < |open|
      modifies `open
      ensures Valid() && open == old(open)[..j] + old(open)[j + 1..]
    {
      hide Sound;
      DiscardSound(View(), hash, j);
      open := open[..j] + open[j + 1..];
    }
  }

  lemma {:induction false} SparedKeys(ks: seq<Key>, r: seq<Key>, size: nat, start: nat, end: nat)
    requires size > 0 && KeysSpared(ks, r, size, start, end)
    ensures forall k :: k in r <==> k in ks && !(start <= k.val.vno % size < end)
  {
  }

  lemma {:induction false} CloseBlocks(s: State, hash: nat -> nat, j: nat)
    requires Sound(s, hash) && j < |s.open|
    ensures forall m | 0 <= m < |s.blocks| :: s.blocks[m].val.count > 0 && s.blocks[m].key != OpenAt(s.open[j], s.size)
    ensures s.open[j].head.hash == hash(s.open[j].head.name)
  {
    forall m | 0 <= m < |s.blocks| ensures s.blocks[m].key != OpenAt(s.open[j], s.size) {
      BlockElsewhere(s, m, j);
    }
  }

  /** In the terms of the sequence of keys. */
  lemma {:induction false} CloseNames(s: State, hash: nat -> nat, j: nat, at: nat, hit: bool)
    requires Sound(s, hash) && j < |s.open| && at <= |s.keys|
    requires hit ==> at < |s.keys| && Names(s.keys[at], s.heads, s.size, s.open[j].head.name)
    requires !hit ==> forall i | 0 <= i < |s.keys| && s.keys[i].key == hash(s.open[j].head.name) :: !Names(s.keys[i], s.heads, s.size, s.open[j].head.name)
    ensures hit ==> at < |s.keys| && Name(s, at) == s.open[j].head.name
    ensures !hit ==> forall m | 0 <= m < |s.keys| :: Name(s, m) != s.open[j].head.name
  {
    if !hit {
      forall m | 0 <= m < |s.keys| ensures Name(s, m) != s.open[j].head.name {
        assert KeyAgrees(s.blocks, s.heads, s.size, s.keys[m]);
      }
    }
  }
}
