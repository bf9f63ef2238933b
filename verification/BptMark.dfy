/** Marking the pages of a tree for the leak check (lib/bpt.c ed_bpt_mark). */
module BptMark {
  import opened BptTree

  /** All leaves are `h` branches down. */
  predicate Uniform(t: Tree, h: nat) {
    match t
    case TLeaf(_, _, _) => h == 0
    case TBranch(_, _, keys, kids) =>
      h > 0 && |kids| == |keys| + 1 && forall i | 0 <= i < |kids| :: Uniform(kids[i], h - 1)
  }

  lemma {:induction false} SoundUniform(t: Tree, h: nat, lo: int, hi: int, o: Orders)
    requires Sound(t, h, lo, hi, o)
    ensures Uniform(t, h)
    decreases t
  {
    if t.TBranch? {
      forall i | 0 <= i < |t.kids| ensures Uniform(t.kids[i], h - 1) {
        SoundUniform(t.kids[i], h - 1, Low(t.keys, lo, i), High(t.keys, hi, i), o);
      }
    }
  }

  /** The pages at most `d` levels below the root of `t`. */
  function Shallow(t: Tree, d: nat): multiset<nat>
    decreases t, 1
  {
    match t
    case TLeaf(no, _, _) => multiset{no}
    case TBranch(no, _, _, kids) => multiset{no} + if d == 0 then multiset{} else ShallowAll(kids, d - 1)
  }

  function ShallowAll(ts: seq<Tree>, d: nat): multiset<nat>
    decreases ts, 0
  {
    if ts == [] then multiset{} else Shallow(ts[0], d) + ShallowAll(ts[1..], d)
  }

  lemma {:induction false} ShallowNext(ts: seq<Tree>, i: nat, d: nat)
    requires i < |ts|
    ensures ShallowAll(ts[..i + 1], d) == ShallowAll(ts[..i], d) + Shallow(ts[i], d)
  {
    hide Shallow;
    if i > 0 {
      ShallowNext(ts[1..], i - 1, d);
      assert ts[..i + 1][1..] == ts[1..][..i] && ts[..i][1..] == ts[1..][..i - 1];
    } else {
      assert ts[..1][1..] == [];
    }
  }

  /** The first `d` levels are the whole tree exactly when it has no more than `d` levels of branches. */
  lemma {:induction false} ShallowWhole(t: Tree, h: nat, d: nat)
    requires Uniform(t, h)
    ensures Shallow(t, d) <= Bag(t) && (Shallow(t, d) == Bag(t) <==> h <= d)
    decreases t, 1
  {
    hide BagAll, ShallowAll;
    if t.TBranch? {
      if d > 0 {
        ShallowAllWhole(t.kids, h - 1, d - 1);
        SumsEqual(multiset{t.no}, multiset{t.no}, ShallowAll(t.kids, d - 1), BagAll(t.kids));
      } else {
        BagNotEmpty(t.kids);
        SumsEqual(multiset{t.no}, multiset{t.no}, multiset{}, BagAll(t.kids));
      }
    }
  }

  lemma {:induction false} BagNotEmpty(ts: seq<Tree>)
    requires ts != []
    ensures BagAll(ts) != multiset{}
  {
    assert ts[0].no in Bag(ts[0]);
  }

  lemma {:induction false} ShallowAllWhole(ts: seq<Tree>, h: nat, d: nat)
    requires forall i | 0 <= i < |ts| :: Uniform(ts[i], h)
    ensures ShallowAll(ts, d) <= BagAll(ts) && (ShallowAll(ts, d) == BagAll(ts) <==> h <= d || ts == [])
    decreases ts, 0
  {
    if ts != [] {
      ShallowWhole(ts[0], h, d);
      ShallowAllWhole(ts[1..], h, d);
      SumsEqual(Shallow(ts[0], d), Bag(ts[0]), ShallowAll(ts[1..], d), BagAll(ts[1..]));
    }
  }

  lemma {:induction false} SumsEqual(a: multiset<nat>, b: multiset<nat>, c: multiset<nat>, d: multiset<nat>)
    requires a <= b && c <= d
    ensures a + c == b + d <==> a == b && c == d
  {
    if a + c == b + d {
      forall x: nat ensures a[x] == b[x] && c[x] == d[x] {
        assert (a + c)[x] == (b + d)[x] && a[x] <= b[x] && c[x] <= d[x];
      }
    }
  }

  /** One turn of the loop in bpt_mark_children. `max` is how deep the code still takes branches to lie; `h` is
      the height of the child. */
  method MarkChild(pages: map<nat, Page>, no: nat, depth: nat, max: nat, ghost t: Tree, ghost h: nat)
    returns (marks: seq<nat>, max': nat)
    requires Stored(pages, t) && no == t.no && Uniform(t, h)
    requires 1 <= depth <= 8 && (max == 8 || max == depth + h <= 8)
    ensures multiset(marks) == Shallow(t, 8 - depth) && (max' == 8 || max' == depth + h <= 8)
    decreases h, 1
  {
    hide ShallowAll;
    marks, max' := [no], max;
    if depth < max {
      if pages[no].Leaf? {
        max' := depth;
      } else {
        marks, max' := MarkChildren(pages, no, depth + 1, max, t, h);
        marks := [no] + marks;
      }
    }
  }

  /** bpt_mark_children: marks the children of the branch `no`, and what is below them as long as no leaf has
      shown how deep the tree is. */
  method MarkChildren(pages: map<nat, Page>, no: nat, depth: nat, max: nat, ghost t: Tree, ghost h: nat)
    returns (marks: seq<nat>, max': nat)
    requires Stored(pages, t) && t.TBranch? && no == t.no && Uniform(t, h)
    requires 1 <= depth <= 8 && (max == 8 || max == depth + h - 1 <= 8)
    ensures multiset(marks) == ShallowAll(t.kids, 8 - depth) && (max' == 8 || max' == depth + h - 1 <= 8)
    decreases h, 0
  {
    hide Shallow;
    var page := pages[no];
    marks, max' := [], max;
    var i := 0;
    assert page == PageOf(t) && |page.ptrs| == |t.kids|;
    while i < |page.ptrs|
      invariant i <= |page.ptrs| == |t.kids| && multiset(marks) == ShallowAll(t.kids[..i], 8 - depth)
      invariant max' == 8 || max' == depth + h - 1 <= 8
    {
      var below;
      below, max' := MarkChild(pages, page.ptrs[i], depth, max', t.kids[i], h - 1);
      marks := marks + below;
      ShallowNext(t.kids, i, 8 - depth);
      i := i + 1;
    }
    assert t.kids[..i] == t.kids;
  }

  /** ed_bpt_mark: the pages marked are all the pages of the tree, each as often as it is there, exactly when the
      tree has at most eight levels of branches. */
  method MarkTree(pages: map<nat, Page>, root: nat, ghost t: Tree, ghost h: nat) returns (marks: seq<nat>)
    requires Stored(pages, t) && root == t.no && Uniform(t, h)
    ensures multiset(marks) == Shallow(t, 8) <= Bag(t) && (multiset(marks) == Bag(t) <==> h <= 8)
  {
    ShallowWhole(t, h, 8);
    marks := [root];
    if pages[root].Branch? {
      var below, _ := MarkChildren(pages, root, 1, 8, t, h);
      marks := marks + below;
    }
  }

  function Pow2(h: nat): nat {
    if h == 0 then 1 else 2 * Pow2(h - 1)
  }

  /** `h` levels of branches of one key each above empty leaves, for keys from `lo`, on pages from `no`. */
  function Twins(h: nat, lo: nat, no: nat): Tree {
    if h == 0 then TLeaf(no, 0, [])
    else
      var n := Pow2(h - 1);
      TBranch(no, 0, [lo + n], [Twins(h - 1, lo, no + 1), Twins(h - 1, lo + n, no + 2 * n)])
  }

  lemma {:induction false} TwinsSound(h: nat, lo: nat, no: nat, hi: int, o: Orders)
    requires o.branch >= 4 && lo + Pow2(h) - 1 <= hi
    ensures Sound(Twins(h, lo, no), h, lo, hi, o)
  {
    if h > 0 {
      var n := Pow2(h - 1);
      TwinsSound(h - 1, lo, no + 1, lo + n - 1, o);
      TwinsSound(h - 1, lo + n, no + 2 * n, hi, o);
    }
  }

  lemma {:induction false} TwinsBag(h: nat, lo: nat, no: nat)
    ensures forall p :: Bag(Twins(h, lo, no))[p] == if no <= p < no + 2 * Pow2(h) - 1 then 1 else 0
  {
    if h > 0 {
      var n := Pow2(h - 1);
      var a, b := Twins(h - 1, lo, no + 1), Twins(h - 1, lo + n, no + 2 * n);
      TwinsBag(h - 1, lo, no + 1);
      TwinsBag(h - 1, lo + n, no + 2 * n);
      assert [a, b][1..] == [b] && [b][1..] == [];
      assert BagAll([a, b]) == Bag(a) + (Bag(b) + BagAll([]));
    }
  }

  /** Nine levels of branches: a tree in order, on pages of its own, of which the code does not mark all. */
  lemma {:induction false} NineLevels(o: Orders)
    requires o.branch >= 4
    ensures var t := Twins(9, 0, 0);
            && Sound(t, 9, 0, KEY_MAX, o) && Uniform(t, 9) && Distinct(Bag(t))
            && Shallow(t, 8) != Bag(t)
  {
    hide Sound, Bag, Uniform, Shallow, Twins;
    var t := Twins(9, 0, 0);
    TwinsSound(9, 0, 0, KEY_MAX, o);
    TwinsBag(9, 0, 0);
    SoundUniform(t, 9, 0, KEY_MAX, o);
    ShallowWhole(t, 9, 8);
  }
}
