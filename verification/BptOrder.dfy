/** Key order across a whole tree, and what a search position means in the sequence of all entries. */
module BptOrder {
  import opened BptTree
  import opened BptGrow
  import opened BptLeaf

  lemma {:induction false} SortedAppend(a: seq<Entry>, b: seq<Entry>, lo: int, mid: int, hi: int)
    requires SortedEntries(a) && SortedEntries(b) && Within(a, lo, mid) && Within(b, mid, hi) && lo <= hi
    requires lo <= mid <= hi
    ensures SortedEntries(a + b) && Within(a + b, lo, hi)
  {
    var r := a + b;
    assert forall i | 0 <= i < |r| :: r[i] == if i < |a| then a[i] else b[i - |a|];
  }

  lemma {:induction false} WithinWiden(a: seq<Entry>, lo: int, hi: int, lo': int, hi': int)
    requires Within(a, lo, hi) && lo' <= lo && hi <= hi'
    ensures Within(a, lo', hi')
  {
  }

  /** The children from number `base` on, in order, hold sorted keys from their least bound up. */
  lemma {:induction false} SideSorted(ts: seq<Tree>, keys: seq<nat>, base: nat, h: nat, lo: int, hi: int, o: Orders)
    requires SoundSide(ts, keys, base, h, lo, hi, o) && Separators(keys, lo, hi) && lo <= hi
    ensures SortedEntries(FlattenAll(ts))
    ensures ts != [] ==> Within(FlattenAll(ts), Low(keys, lo, base), High(keys, hi, base + |ts| - 1))
    decreases ts, 0
  {
    if ts != [] {
      assert Sound(ts[0], h, Low(keys, lo, base + 0), High(keys, hi, base + 0), o);
      TreeSorted(ts[0], h, Low(keys, lo, base), High(keys, hi, base), o);
      SideTail(ts, keys, base, h, lo, hi, o);
      SideSorted(ts[1..], keys, base + 1, h, lo, hi, o);
      if ts[1..] == [] {
        assert FlattenAll(ts) == Flatten(ts[0]);
      } else {
        var m := Low(keys, lo, base + 1);
        WithinWiden(Flatten(ts[0]), Low(keys, lo, base), High(keys, hi, base), Low(keys, lo, base), m);
        SortedAppend(Flatten(ts[0]), FlattenAll(ts[1..]), Low(keys, lo, base), m, High(keys, hi, base + |ts| - 1));
      }
    }
  }

  lemma {:induction false} SideTail(ts: seq<Tree>, keys: seq<nat>, base: nat, h: nat, lo: int, hi: int, o: Orders)
    requires SoundSide(ts, keys, base, h, lo, hi, o) && ts != []
    ensures SoundSide(ts[1..], keys, base + 1, h, lo, hi, o)
  {
    hide Sound;
    forall i | 0 <= i < |ts| - 1
      ensures Sound(ts[1..][i], h, Low(keys, lo, base + 1 + i), High(keys, hi, base + 1 + i), o)
    {
      assert ts[1..][i] == ts[i + 1];
      assert base + (i + 1) == base + 1 + i;
    }
  }

  /** A sound tree's entries are sorted and inside its key range. */
  lemma {:induction false} TreeSorted(t: Tree, h: nat, lo: int, hi: int, o: Orders)
    requires Sound(t, h, lo, hi, o)
    ensures SortedEntries(Flatten(t)) && Within(Flatten(t), lo, hi)
    decreases t, 1
  {
    if t.TBranch? {
      assert t.keys[0] > lo;
      assert SoundSide(t.kids, t.keys, 0, h - 1, lo, hi, o);
      SideSorted(t.kids, t.keys, 0, h - 1, lo, hi, o);
    }
  }

  lemma {:induction false} ChildRange(keys: seq<nat>, lo: int, hi: int, i: nat)
    requires Separators(keys, lo, hi) && lo <= hi && i <= |keys|
    ensures lo <= Low(keys, lo, i) <= High(keys, hi, i) <= hi
  {
  }

  lemma {:induction false} PathRange(fs: seq<Frame>, h: nat, o: Orders)
    requires SoundPath(fs, h, o)
    ensures 0 <= PathLow(fs) <= PathHigh(fs) <= KEY_MAX
    decreases |fs|
  {
    hide Sound;
    if fs != [] {
      PathRange(fs[1..], h + 1, o);
      ChildRange(fs[0].keys, PathLow(fs[1..]), PathHigh(fs[1..]), |fs[0].left|);
    }
  }

  lemma {:induction false} NothingSorted(lo: int, hi: int)
    ensures SortedEntries([]) && Within([], lo, hi)
  {
  }

  /** Everything left of the hole is below its range, everything right of it above. */
  lemma {:induction false} SidesSorted(fs: seq<Frame>, h: nat, o: Orders)
    requires SoundPath(fs, h, o)
    ensures SortedEntries(Before(fs)) && Within(Before(fs), 0, PathLow(fs) - 1)
    ensures SortedEntries(After(fs)) && Within(After(fs), PathHigh(fs) + 1, KEY_MAX)
    decreases |fs|
  {
    hide SortedEntries;
    hide Within;
    hide Sound;
    hide SoundSide;
    hide FlattenAll;
    if fs == [] {
      NothingSorted(0, PathLow(fs) - 1);
      NothingSorted(PathHigh(fs) + 1, KEY_MAX);
    } else {
      SidesSorted(fs[1..], h + 1, o);
      PathRange(fs[1..], h + 1, o);
      ChildRange(fs[0].keys, PathLow(fs[1..]), PathHigh(fs[1..]), |fs[0].left|);
      FrameSides(fs[0], h, PathLow(fs[1..]), PathHigh(fs[1..]), o);
      LeftJoin(Before(fs[1..]), FlattenAll(fs[0].left), PathLow(fs[1..]), PathLow(fs));
      RightJoin(FlattenAll(fs[0].right), After(fs[1..]), PathHigh(fs), PathHigh(fs[1..]));
    }
  }

  lemma {:induction false} FrameSides(f: Frame, h: nat, lo: int, hi: int, o: Orders)
    requires SoundFrame(f, 1, h, lo, hi, o) && 0 <= lo <= hi
    ensures SortedEntries(FlattenAll(f.left)) && Within(FlattenAll(f.left), lo, Low(f.keys, lo, |f.left|) - 1)
    ensures SortedEntries(FlattenAll(f.right)) && Within(FlattenAll(f.right), High(f.keys, hi, |f.left|) + 1, hi)
  {
    hide Sound;
    SideSorted(f.left, f.keys, 0, h, lo, hi, o);
    SideSorted(f.right, f.keys, |f.left| + 1, h, lo, hi, o);
  }

  lemma {:induction false} LeftJoin(a: seq<Entry>, b: seq<Entry>, lo: int, hi: int)
    requires SortedEntries(a) && SortedEntries(b) && Within(a, 0, lo - 1) && Within(b, lo, hi - 1) && 0 <= lo <= hi
    ensures SortedEntries(a + b) && Within(a + b, 0, hi - 1)
  {
    if b == [] {
      assert a + b == a;
    } else {
      assert lo <= b[0].key <= hi - 1;
      WithinWiden(a, 0, lo - 1, 0, lo);
      SortedAppend(a, b, 0, lo, hi - 1);
    }
  }

  lemma {:induction false} RightJoin(a: seq<Entry>, b: seq<Entry>, lo: int, hi: int)
    requires SortedEntries(a) && SortedEntries(b) && Within(a, lo + 1, hi) && Within(b, hi + 1, KEY_MAX) && 0 <= lo <= hi <= KEY_MAX
    ensures SortedEntries(a + b) && Within(a + b, lo + 1, KEY_MAX)
  {
    if a == [] {
      assert a + b == b;
    } else {
      assert lo + 1 <= a[0].key <= hi;
      WithinWiden(b, hi + 1, KEY_MAX, hi, KEY_MAX);
      SortedAppend(a, b, lo + 1, hi, KEY_MAX);
    }
  }

  /** `pos` is where the first entry of key `key` is, or would go. */
  predicate LowerBound(all: seq<Entry>, key: nat, pos: nat) {
    && pos <= |all|
    && (forall i | 0 <= i < pos :: all[i].key < key)
    && (forall i | pos <= i < |all| :: key <= all[i].key)
  }

  /** A position in the leaf a key's path leads to is a position among all entries. */
  lemma {:induction false} LeafLowerBound(fs: seq<Frame>, h: nat, o: Orders, ents: seq<Entry>, key: nat, idx: nat)
    requires SoundPath(fs, h, o) && PathLow(fs) <= key <= PathHigh(fs)
    requires LowerBound(ents, key, idx)
    ensures LowerBound(Before(fs) + ents + After(fs), key, |Before(fs)| + idx)
    ensures forall i | 0 <= i < |After(fs)| :: After(fs)[i].key > key
  {
    hide SoundPath;
    SidesSorted(fs, h, o);
    var a, b := Before(fs), After(fs);
    var all := a + ents + b;
    forall i | 0 <= i < |all|
      ensures i < |a| + idx ==> all[i].key < key
      ensures i >= |a| + idx ==> key <= all[i].key
    {
      if i < |a| {
        assert all[i] == a[i];
      } else if i < |a| + |ents| {
        assert all[i] == ents[i - |a|];
      } else {
        assert all[i] == b[i - |a| - |ents|];
      }
    }
  }
}
