/** A B+tree seen as its row of leaves: what a walk over it meets, and what edits leave behind. A leaf that ran
    empty stays, and its first slot still holds the entry removed last. */
module Leaves {
  import opened BptTree
  import opened BptLeaf

  /** An entry of a tree: the key it is found under, and the rest. */
  datatype Item<V> = Item(key: nat, val: V)

  /** `low` is the separator in front of the leaf, `stale` what its first slot holds while it has no entry. */
  datatype Node<V> = Node(low: nat, items: seq<Item<V>>, stale: Item<V>)

  function Flat<V>(ls: seq<Node<V>>): seq<Item<V>> {
    if ls == [] then [] else ls[0].items + Flat(ls[1..])
  }

  predicate Sorted<V>(s: seq<Item<V>>) {
    forall i, j | 0 <= i < j < |s| :: s[i].key <= s[j].key
  }

  /** The separator behind leaf `p`, unless it is the last. */
  function High<V>(ls: seq<Node<V>>, p: nat): Option<nat> {
    if p + 1 < |ls| then Some(ls[p + 1].low) else None
  }

  predicate Under(key: nat, hi: Option<nat>) {
    hi.Some? ==> key < hi.value
  }

  /** The separators leave `key` to leaf `p`. */
  predicate InLeaf<V>(ls: seq<Node<V>>, p: nat, key: nat)
    requires p < |ls|
  {
    ls[p].low <= key && Under(key, High(ls, p))
  }

  predicate NodeOk<V>(l: Node<V>, hi: Option<nat>, order: nat) {
    && Sorted(l.items) && |l.items| <= order
    && (forall i | 0 <= i < |l.items| :: l.low <= l.items[i].key && Under(l.items[i].key, hi))
    && (l.items == [] ==> l.low <= l.stale.key && Under(l.stale.key, hi))
  }

  predicate LeafOk<V>(ls: seq<Node<V>>, p: nat, order: nat)
    requires p < |ls|
  {
    NodeOk(ls[p], High(ls, p), order)
  }

  predicate TreeOk<V>(ls: seq<Node<V>>, order: nat) {
    && (ls != [] ==> ls[0].low == 0)
    && (forall p, r | 0 <= p < r < |ls| :: ls[p].low < ls[r].low)
    && (forall p | 0 <= p < |ls| :: LeafOk(ls, p, order))
  }

  lemma {:induction false} FlatAppend<V>(a: seq<Node<V>>, b: seq<Node<V>>)
    ensures Flat(a + b) == Flat(a) + Flat(b)
  {
    if a == [] {
      assert a + b == b;
    } else {
      assert (a + b)[1..] == a[1..] + b;
      FlatAppend(a[1..], b);
    }
  }

  lemma {:induction false} FlatAt<V>(ls: seq<Node<V>>, p: nat)
    requires p < |ls|
    ensures Flat(ls) == Flat(ls[..p]) + ls[p].items + Flat(ls[p + 1..])
    ensures Flat(ls[..p + 1]) == Flat(ls[..p]) + ls[p].items
  {
    assert ls == ls[..p] + ls[p..];
    FlatAppend(ls[..p], ls[p..]);
    assert ls[p..][1..] == ls[p + 1..];
    assert ls[..p + 1] == ls[..p] + [ls[p]];
    FlatAppend(ls[..p], [ls[p]]);
    FlatOne(ls[p]);
  }

  lemma {:induction false} FlatOne<V>(l: Node<V>)
    ensures Flat([l]) == l.items
  {
  }

  /** Where the entries come from. */
  lemma {:induction false} FlatFrom<V>(ls: seq<Node<V>>, i: nat) returns (p: nat, q: nat)
    requires i < |Flat(ls)|
    ensures p < |ls| && q < |ls[p].items| && ls[p].items[q] == Flat(ls)[i]
    decreases |ls|
  {
    if i < |ls[0].items| {
      p, q := 0, i;
    } else {
      p, q := FlatFrom(ls[1..], i - |ls[0].items|);
      p := p + 1;
    }
  }

  predicate AllBelow<V>(s: seq<Item<V>>, key: nat) {
    forall i | 0 <= i < |s| :: s[i].key < key
  }

  predicate AllFrom<V>(s: seq<Item<V>>, key: nat) {
    forall i | 0 <= i < |s| :: s[i].key >= key
  }

  /** Entries left of a leaf are below its separator, entries right of it at or above the next one. */
  lemma {:induction false} FlatSides<V>(ls: seq<Node<V>>, p: nat, order: nat)
    requires TreeOk(ls, order) && p < |ls|
    ensures AllBelow(Flat(ls[..p]), ls[p].low)
    ensures if p + 1 < |ls| then AllFrom(Flat(ls[p + 1..]), ls[p + 1].low) else Flat(ls[p + 1..]) == []
  {
    var a := Flat(ls[..p]);
    forall i | 0 <= i < |a| ensures a[i].key < ls[p].low {
      var r, q := FlatFrom(ls[..p], i);
      assert LeafOk(ls, r, order) && InLeaf(ls, r, ls[r].items[q].key);
      assert r + 1 == p || ls[r + 1].low < ls[p].low;
    }
    if p + 1 < |ls| {
      var b := Flat(ls[p + 1..]);
      forall i | 0 <= i < |b| ensures b[i].key >= ls[p + 1].low {
        var r, q := FlatFrom(ls[p + 1..], i);
        assert LeafOk(ls, p + 1 + r, order) && InLeaf(ls, p + 1 + r, ls[p + 1 + r].items[q].key);
        assert r == 0 || ls[p + 1].low < ls[p + 1 + r].low;
      }
    }
  }

  // ---- finding

  /** The leaf a search ends in. */
  function Place<V>(ls: seq<Node<V>>, key: nat): (p: nat)
    requires ls != []
    ensures p < |ls|
  {
    if |ls| == 1 || key < ls[1].low then 0 else 1 + Place(ls[1..], key)
  }

  lemma {:induction false} PlaceIn<V>(ls: seq<Node<V>>, key: nat)
    requires ls != [] && ls[0].low <= key
    ensures InLeaf(ls, Place(ls, key), key)
    decreases |ls|
  {
    if |ls| > 1 && key >= ls[1].low {
      PlaceIn(ls[1..], key);
    }
  }

  /** The first entry of a leaf not below the key. */
  function Lower<V>(items: seq<Item<V>>, key: nat): (q: nat)
    ensures q <= |items| && (forall i | 0 <= i < q :: items[i].key < key) && (q < |items| ==> items[q].key >= key)
  {
    if items == [] || items[0].key >= key then 0 else 1 + Lower(items[1..], key)
  }

  /** The entry's place in the leaf is its place among all entries. */
  lemma {:induction false} FoundAt<V>(ls: seq<Node<V>>, order: nat, p: nat, q: nat, key: nat)
    requires TreeOk(ls, order) && p < |ls| && InLeaf(ls, p, key) && q == Lower(ls[p].items, key)
    ensures var at := |Flat(ls[..p])| + q;
            && at <= |Flat(ls)|
            && (forall i | 0 <= i < at :: Flat(ls)[i].key < key)
            && (forall i | at <= i < |Flat(ls)| :: Flat(ls)[i].key >= key)
  {
    hide Flat;
    hide Lower;
    FlatAt(ls, p);
    FlatSides(ls, p, order);
    assert LeafOk(ls, p, order);
    var a, items, b, at := Flat(ls[..p]), ls[p].items, Flat(ls[p + 1..]), |Flat(ls[..p])| + q;
    forall i | 0 <= i < at ensures Flat(ls)[i].key < key {
      assert Flat(ls)[i] == if i < |a| then a[i] else items[i - |a|];
    }
    forall i | at <= i < |Flat(ls)| ensures Flat(ls)[i].key >= key {
      assert Flat(ls)[i] == if i < |a| + |items| then items[i - |a|] else b[i - |a| - |items|];
    }
  }

  /** Entries of one key are in the leaf a search for it ends in. */
  lemma {:induction false} EqualInLeaf<V>(ls: seq<Node<V>>, order: nat, p: nat, key: nat, i: nat)
    requires TreeOk(ls, order) && p < |ls| && InLeaf(ls, p, key) && i < |Flat(ls)| && Flat(ls)[i].key == key
    ensures var a := |Flat(ls[..p])|; a <= i < a + |ls[p].items| && ls[p].items[i - a] == Flat(ls)[i]
  {
    hide Flat;
    FlatAt(ls, p);
    FlatSides(ls, p, order);
    var all, a, items, b := Flat(ls), Flat(ls[..p]), ls[p].items, Flat(ls[p + 1..]);
    forall j | 0 <= j < |a| ensures all[j].key < key {
      assert all[j] == a[j];
    }
    forall j | |a| + |items| <= j < |all| ensures all[j].key > key {
      assert all[j] == b[j - |a| - |items|];
    }
  }

  /** How many entries of `key` follow from place `q` on. */
  function Run<V>(items: seq<Item<V>>, q: nat, key: nat): (n: nat)
    requires q <= |items|
    ensures q + n <= |items| && (forall i | q <= i < q + n :: items[i].key == key) && (q + n < |items| ==> items[q + n].key != key)
    decreases |items| - q
  {
    if q < |items| && items[q].key == key then 1 + Run(items, q + 1, key) else 0
  }

  /** In a sorted leaf they are together. */
  lemma {:induction false} RunWhole<V>(items: seq<Item<V>>, key: nat, q: nat, n: nat)
    requires Sorted(items) && q <= q + n <= |items| && AllBelow(items[..q], key)
    requires (forall i | q <= i < q + n :: items[i].key == key) && (q + n < |items| ==> items[q + n].key > key)
    ensures forall i | 0 <= i < |items| && items[i].key == key :: q <= i < q + n
    ensures AllFrom(items[q + n..], key + 1)
  {
    forall i | 0 <= i < q ensures items[i].key < key {
      assert items[..q][i] == items[i];
    }
    forall i | q + n <= i < |items| ensures items[i].key > key {
      assert i == q + n || items[q + n].key <= items[i].key;
    }
  }

  lemma {:induction false} FlatSorted<V>(ls: seq<Node<V>>, order: nat)
    requires TreeOk(ls, order)
    ensures Sorted(Flat(ls))
  {
    SortedRow(ls, order, 0);
    assert ls[0..] == ls;
  }

  lemma {:induction false} SortedRow<V>(ls: seq<Node<V>>, order: nat, p: nat)
    requires TreeOk(ls, order) && p <= |ls|
    ensures Sorted(Flat(ls[p..]))
    decreases |ls| - p
  {
    hide Flat;
    if p < |ls| {
      SortedRow(ls, order, p + 1);
      FlatSides(ls, p, order);
      assert LeafOk(ls, p, order);
      FlatHead(ls[p..]);
      assert ls[p..][1..] == ls[p + 1..];
      SortedJoin(ls[p].items, Flat(ls[p + 1..]), if p + 1 < |ls| then ls[p + 1].low else 0);
    } else {
      FlatNone<V>();
    }
  }

  lemma {:induction false} FlatHead<V>(ls: seq<Node<V>>)
    requires ls != []
    ensures Flat(ls) == ls[0].items + Flat(ls[1..])
  {
  }

  lemma {:induction false} FlatNone<V>()
    ensures Flat<V>([]) == []
  {
  }

  lemma {:induction false} SortedJoin<V>(a: seq<Item<V>>, b: seq<Item<V>>, k: nat)
    requires Sorted(a) && Sorted(b) && (b == [] || (AllBelow(a, k) && AllFrom(b, k)))
    ensures Sorted(a + b)
  {
  }

  // ---- removing

  /** An entry taken out; the last one stays behind in the first slot. */
  function Removed<V>(l: Node<V>, q: nat): Node<V>
    requires q < |l.items|
  {
    Node(l.low, l.items[..q] + l.items[q + 1..], if |l.items| == 1 then l.items[0] else l.stale)
  }

  lemma {:induction false} RemovedOk<V>(ls: seq<Node<V>>, order: nat, p: nat, q: nat)
    requires TreeOk(ls, order) && p < |ls| && q < |ls[p].items|
    ensures TreeOk(ls[p := Removed(ls[p], q)], order)
  {
    var t := ls[p := Removed(ls[p], q)];
    assert forall r | 0 <= r < |ls| :: t[r].low == ls[r].low;
    forall r | 0 <= r < |t| ensures LeafOk(t, r, order) {
      assert LeafOk(ls, r, order);
      if r == p {
        assert forall i | 0 <= i < |t[p].items| :: t[p].items[i] == ls[p].items[if i < q then i else i + 1];
      }
    }
  }

  lemma {:induction false} RemovedFlat<V>(ls: seq<Node<V>>, p: nat, q: nat)
    requires p < |ls| && q < |ls[p].items|
    ensures var at := |Flat(ls[..p])| + q;
            && at < |Flat(ls)| && Flat(ls)[at] == ls[p].items[q]
            && Flat(ls[p := Removed(ls[p], q)]) == Flat(ls)[..at] + Flat(ls)[at + 1..]
  {
    hide Flat;
    var t := ls[p := Removed(ls[p], q)];
    FlatAt(ls, p);
    FlatAt(t, p);
    assert t[..p] == ls[..p] && t[p + 1..] == ls[p + 1..];
  }

  // ---- inserting

  function With<V>(s: seq<Item<V>>, q: nat, e: Item<V>): seq<Item<V>>
    requires q <= |s|
  {
    s[..q] + [e] + s[q..]
  }

  /** The entry goes in order. */
  predicate Between<V>(s: seq<Item<V>>, q: nat, key: nat) {
    q <= |s| && (q > 0 ==> s[q - 1].key <= key) && (q < |s| ==> key <= s[q].key)
  }

  lemma {:induction false} WithSorted<V>(s: seq<Item<V>>, q: nat, e: Item<V>)
    requires Sorted(s) && Between(s, q, e.key)
    ensures Sorted(With(s, q, e))
  {
    var t := With(s, q, e);
    assert forall i | 0 <= i < |t| :: t[i] == if i < q then s[i] else if i == q then e else s[i - 1];
    forall i | 0 <= i < |s| ensures if i < q then s[i].key <= e.key else e.key <= s[i].key {
      assert i < q ==> i == q - 1 || s[i].key <= s[q - 1].key;
      assert i > q ==> s[q].key <= s[i].key;
    }
  }

  /** A leaf with one more entry; its separator may be raised to an entry that is now its first. */
  function Grown<V>(l: Node<V>, q: nat, e: Item<V>, raise: bool): Node<V>
    requires q <= |l.items|
  {
    Node(if raise && q == 0 then e.key else l.low, With(l.items, q, e), l.stale)
  }

  lemma {:induction false} GrownNode<V>(l: Node<V>, hi: Option<nat>, order: nat, q: nat, e: Item<V>, raise: bool)
    requires NodeOk(l, hi, order) && l.low <= e.key && Under(e.key, hi) && Between(l.items, q, e.key) && |l.items| < order
    ensures NodeOk(Grown(l, q, e, raise), hi, order) && l.low <= Grown(l, q, e, raise).low && Under(Grown(l, q, e, raise).low, hi)
  {
    var g := Grown(l, q, e, raise);
    WithSorted(l.items, q, e);
    assert forall i | 0 <= i < |g.items| :: g.items[i] == if i < q then l.items[i] else if i == q then e else l.items[i - 1];
  }

  lemma {:induction false} HigherOk<V>(l: Node<V>, hi: Option<nat>, hi': Option<nat>, order: nat)
    requires NodeOk(l, hi, order) && (hi == hi' || (hi.Some? && hi'.Some? && hi.value <= hi'.value))
    ensures NodeOk(l, hi', order)
  {
  }

  lemma {:induction false} GrownOk<V>(ls: seq<Node<V>>, order: nat, p: nat, q: nat, e: Item<V>, raise: bool)
    requires TreeOk(ls, order) && p < |ls| && InLeaf(ls, p, e.key) && Between(ls[p].items, q, e.key) && |ls[p].items| < order
    requires raise ==> p > 0
    ensures TreeOk(ls[p := Grown(ls[p], q, e, raise)], order)
  {
    hide NodeOk;
    hide Grown;
    var g := Grown(ls[p], q, e, raise);
    var t := ls[p := g];
    assert LeafOk(ls, p, order);
    GrownNode(ls[p], High(ls, p), order, q, e, raise);
    GrownLow(ls[p], q, e);
    forall r | 0 <= r < |t| ensures LeafOk(t, r, order) {
      assert LeafOk(ls, r, order);
      HigherOk(t[r], High(ls, r), High(t, r), order);
    }
  }

  lemma {:induction false} GrownLow<V>(l: Node<V>, q: nat, e: Item<V>)
    requires q <= |l.items|
    ensures Grown(l, q, e, false).low == l.low
  {
  }

  lemma {:induction false} GrownFlat<V>(ls: seq<Node<V>>, p: nat, q: nat, e: Item<V>, raise: bool)
    requires p < |ls| && q <= |ls[p].items|
    ensures var at := |Flat(ls[..p])| + q;
            at <= |Flat(ls)| && Flat(ls[p := Grown(ls[p], q, e, raise)]) == With(Flat(ls), at, e)
  {
    hide Flat;
    var t := ls[p := Grown(ls[p], q, e, raise)];
    FlatAt(ls, p);
    FlatAt(t, p);
    assert t[..p] == ls[..p] && t[p + 1..] == ls[p + 1..];
  }

  /** A leaf cut in two under the separator `sep`. */
  function Split<V>(ls: seq<Node<V>>, p: nat, mid: nat, sep: nat): seq<Node<V>>
    requires p < |ls| && mid <= |ls[p].items|
  {
    ls[..p] + [Node(ls[p].low, ls[p].items[..mid], ls[p].stale), Node(sep, ls[p].items[mid..], ls[p].stale)] + ls[p + 1..]
  }

  lemma {:induction false} SplitNodes<V>(l: Node<V>, hi: Option<nat>, order: nat, mid: nat, sep: nat)
    requires NodeOk(l, hi, order) && 0 < mid < |l.items| && l.items[mid - 1].key < sep <= l.items[mid].key
    ensures NodeOk(Node(l.low, l.items[..mid], l.stale), Some(sep), order) && NodeOk(Node(sep, l.items[mid..], l.stale), hi, order)
    ensures l.low < sep && Under(sep, hi)
  {
    forall i | 0 <= i < mid ensures l.items[i].key < sep {
      assert i == mid - 1 || l.items[i].key <= l.items[mid - 1].key;
    }
    forall i | mid <= i < |l.items| ensures l.items[i].key >= sep {
      assert i == mid || l.items[mid].key <= l.items[i].key;
    }
  }

  lemma {:induction false} SplitAt<V>(ls: seq<Node<V>>, p: nat, mid: nat, sep: nat)
    requires p < |ls| && mid <= |ls[p].items|
    ensures var t := Split(ls, p, mid, sep);
            && |t| == |ls| + 1 && t[p] == Node(ls[p].low, ls[p].items[..mid], ls[p].stale) && t[p + 1] == Node(sep, ls[p].items[mid..], ls[p].stale)
            && (forall r | 0 <= r < p :: t[r] == ls[r]) && (forall r | p + 1 < r < |t| :: t[r] == ls[r - 1])
  {
  }

  lemma {:induction false} SplitLows<V>(ls: seq<Node<V>>, order: nat, p: nat, mid: nat, sep: nat)
    requires TreeOk(ls, order) && p < |ls| && mid <= |ls[p].items| && ls[p].low < sep && Under(sep, High(ls, p))
    ensures var t := Split(ls, p, mid, sep); forall a, b | 0 <= a < b < |t| :: t[a].low < t[b].low
  {
    hide NodeOk;
    hide Split;
    var t := Split(ls, p, mid, sep);
    SplitAt(ls, p, mid, sep);
    forall a, b | 0 <= a < b < |t| ensures t[a].low < t[b].low {
      var x, y := if a <= p then a else a - 1, if b <= p then b else b - 1;
      assert x == y || ls[x].low < ls[y].low;
      assert x == p || ls[x].low < ls[p].low || ls[p].low < ls[x].low;
      assert a == p + 1 && b > p + 2 ==> ls[p + 1].low < ls[b - 1].low;
    }
  }

  lemma {:induction false} SplitOk<V>(ls: seq<Node<V>>, order: nat, p: nat, mid: nat, sep: nat)
    requires TreeOk(ls, order) && p < |ls| && 0 < mid < |ls[p].items|
    requires ls[p].items[mid - 1].key < sep <= ls[p].items[mid].key
    ensures TreeOk(Split(ls, p, mid, sep), order)
  {
    hide NodeOk;
    hide Split;
    var t := Split(ls, p, mid, sep);
    SplitAt(ls, p, mid, sep);
    assert LeafOk(ls, p, order);
    SplitNodes(ls[p], High(ls, p), order, mid, sep);
    SplitLows(ls, order, p, mid, sep);
    forall r | 0 <= r < |t| ensures LeafOk(t, r, order) {
      assert LeafOk(ls, if r <= p then r else r - 1, order);
    }
  }

  lemma {:induction false} SplitFlat<V>(ls: seq<Node<V>>, p: nat, mid: nat, sep: nat)
    requires p < |ls| && mid <= |ls[p].items|
    ensures var t := Split(ls, p, mid, sep);
            Flat(t) == Flat(ls) && Flat(t[..p]) == Flat(ls[..p]) && Flat(t[..p + 1]) == Flat(ls[..p]) + ls[p].items[..mid]
  {
    hide Flat;
    hide Split;
    var t := Split(ls, p, mid, sep);
    SplitAt(ls, p, mid, sep);
    assert t[..p] == ls[..p] && t[p + 1..][1..] == ls[p + 1..];
    FlatAt(ls, p);
    FlatAt(t, p);
    FlatHead(t[p + 1..]);
    assert ls[p].items == ls[p].items[..mid] + ls[p].items[mid..];
  }

  /** An entry replaced by one of the same key; the separator may be raised to it if it is the first. */
  function Replaced<V>(l: Node<V>, q: nat, e: Item<V>, raise: bool): Node<V>
    requires q < |l.items|
  {
    l.(low := if raise && q == 0 then e.key else l.low, items := l.items[q := e])
  }

  lemma {:induction false} ReplacedNode<V>(l: Node<V>, hi: Option<nat>, order: nat, q: nat, e: Item<V>, raise: bool)
    requires NodeOk(l, hi, order) && q < |l.items| && e.key == l.items[q].key
    ensures NodeOk(Replaced(l, q, e, raise), hi, order) && l.low <= Replaced(l, q, e, raise).low && Under(Replaced(l, q, e, raise).low, hi)
  {
  }

  lemma {:induction false} ReplacedOk<V>(ls: seq<Node<V>>, order: nat, p: nat, q: nat, e: Item<V>, raise: bool)
    requires TreeOk(ls, order) && p < |ls| && q < |ls[p].items| && e.key == ls[p].items[q].key
    requires raise ==> p > 0
    ensures TreeOk(ls[p := Replaced(ls[p], q, e, raise)], order)
  {
    hide NodeOk;
    var t := ls[p := Replaced(ls[p], q, e, raise)];
    assert LeafOk(ls, p, order);
    ReplacedNode(ls[p], High(ls, p), order, q, e, raise);
    forall r | 0 <= r < |t| ensures LeafOk(t, r, order) {
      assert LeafOk(ls, r, order);
      HigherOk(t[r], High(ls, r), High(t, r), order);
    }
  }

  lemma {:induction false} ReplacedFlat<V>(ls: seq<Node<V>>, p: nat, q: nat, e: Item<V>, raise: bool)
    requires p < |ls| && q < |ls[p].items|
    ensures var at := |Flat(ls[..p])| + q;
            && at < |Flat(ls)| && Flat(ls)[at] == ls[p].items[q]
            && Flat(ls[p := Replaced(ls[p], q, e, raise)]) == Flat(ls)[at := e]
  {
    hide Flat;
    var t := ls[p := Replaced(ls[p], q, e, raise)];
    FlatAt(ls, p);
    FlatAt(t, p);
    assert t[..p] == ls[..p] && t[p + 1..] == ls[p + 1..];
  }

  // ---- ed_bpt_set

  function Keys<V>(items: seq<Item<V>>): (r: seq<Entry>)
    ensures |r| == |items| && forall i | 0 <= i < |r| :: r[i].key == items[i].key
  {
    seq(|items|, i requires 0 <= i < |items| => Entry(items[i].key, 0))
  }

  /** What split_leaf asserts of a cut: it does not part entries of one key. */
  predicate CutOk<V>(items: seq<Item<V>>, q: nat, key: nat, mid: nat) {
    0 < mid < |items| && items[mid - 1].key < (if mid == q then key else items[mid].key)
  }

  datatype SetRc = Done | DupKey | Torn

  /** How an insertion at place `q` of leaf `l` ends, with `nm` matches counted. */
  function SetEnd<V>(l: Node<V>, order: nat, q: nat, nm: nat, key: nat): SetRc
    requires order >= 2 && q <= |l.items| <= order && nm <= q + 1 && (nm > 0 ==> q < |l.items|)
  {
    if |l.items| < order then Done
    else
      var r := SplitPoint(Keys(l.items), key, q, nm);
      if r.None? then DupKey else if CutOk(l.items, q, key, r.value) then Done else Torn
  }

  /** ed_bpt_set of a new entry: into the leaf, or into one half of it if it was full. */
  method Put<V>(ls: seq<Node<V>>, order: nat, p: nat, q: nat, nm: nat, e: Item<V>, raise: bool) returns (rc: SetRc, t: seq<Node<V>>)
    requires TreeOk(ls, order) && order >= 2 && p < |ls| && |ls[p].items| <= order
    requires InLeaf(ls, p, e.key) && Between(ls[p].items, q, e.key)
    requires nm <= q + 1 && (nm > 0 ==> q < |ls[p].items|) && (raise ==> p > 0)
    ensures rc == SetEnd(ls[p], order, q, nm, e.key)
    ensures rc == Done ==>
              var at := |Flat(ls[..p])| + q; TreeOk(t, order) && t != [] && at <= |Flat(ls)| && Flat(t) == With(Flat(ls), at, e)
    ensures rc != Done ==> t == ls
  {
    hide TreeOk;
    hide Flat;
    hide Keys;
    t := ls;
    if |ls[p].items| < order {
      GrownOk(ls, order, p, q, e, raise);
      GrownFlat(ls, p, q, e, raise);
      return Done, ls[p := Grown(ls[p], q, e, raise)];
    }
    var r := SplitPoint(Keys(ls[p].items), e.key, q, nm);
    if r.None? {
      return DupKey, ls;
    }
    var mid := r.value;
    if !CutOk(ls[p].items, q, e.key, mid) {
      return Torn, ls;
    }
    t := PutHalf(ls, order, p, q, e, mid, raise);
    rc := Done;
  }

  function Separator<V>(items: seq<Item<V>>, q: nat, key: nat, mid: nat): nat
    requires mid < |items|
  {
    if mid == q then key else items[mid].key
  }

  /** Each half of a full leaf has room for the entry in order. */
  lemma {:induction false} HalfReady<V>(ls: seq<Node<V>>, order: nat, p: nat, q: nat, key: nat, mid: nat)
    requires TreeOk(ls, order) && p < |ls| && |ls[p].items| == order && InLeaf(ls, p, key) && Between(ls[p].items, q, key)
    requires CutOk(ls[p].items, q, key, mid)
    ensures var t := Split(ls, p, mid, Separator(ls[p].items, q, key, mid));
            var h, i := if q < mid then p else p + 1, if q < mid then q else q - mid;
            TreeOk(t, order) && InLeaf(t, h, key) && Between(t[h].items, i, key) && |t[h].items| < order
  {
    hide TreeOk;
    hide Split;
    var items, sep := ls[p].items, Separator(ls[p].items, q, key, mid);
    LeafSorted(ls, order, p);
    SplitOk(ls, order, p, mid, sep);
    SplitAt(ls, p, mid, sep);
    assert q < mid ==> items[q].key <= items[mid - 1].key || q == mid - 1;
    assert q > mid ==> items[mid].key <= items[q - 1].key || q - 1 == mid;
  }

  method PutHalf<V>(ls: seq<Node<V>>, order: nat, p: nat, q: nat, e: Item<V>, mid: nat, raise: bool) returns (t: seq<Node<V>>)
    requires TreeOk(ls, order) && p < |ls| && |ls[p].items| == order && InLeaf(ls, p, e.key) && Between(ls[p].items, q, e.key)
    requires CutOk(ls[p].items, q, e.key, mid) && (raise ==> p > 0)
    ensures var at := |Flat(ls[..p])| + q; TreeOk(t, order) && t != [] && at <= |Flat(ls)| && Flat(t) == With(Flat(ls), at, e)
  {
    hide TreeOk;
    hide Flat;
    hide Split;
    hide Grown;
    hide With;
    var sep := Separator(ls[p].items, q, e.key, mid);
    SplitFlat(ls, p, mid, sep);
    SplitAt(ls, p, mid, sep);
    HalfReady(ls, order, p, q, e.key, mid);
    t := Split(ls, p, mid, sep);
    var h, i := if q < mid then p else p + 1, if q < mid then q else q - mid;
    GrownOk(t, order, h, i, e, raise && q < mid);
    GrownFlat(t, h, i, e, raise && q < mid);
    t := t[h := Grown(t[h], i, e, raise && q < mid)];
  }

  lemma {:induction false} LeafSorted<V>(ls: seq<Node<V>>, order: nat, p: nat)
    requires TreeOk(ls, order) && p < |ls|
    ensures Sorted(ls[p].items) && |ls[p].items| <= order
  {
    assert LeafOk(ls, p, order);
  }

  predicate OneKey<V>(items: seq<Item<V>>) {
    forall i, j | 0 <= i < j < |items| :: items[i].key == items[j].key
  }

  lemma {:induction false} KeysSorted<V>(items: seq<Item<V>>)
    requires Sorted(items)
    ensures SortedEntries(Keys(items)) && (AllEqual(Keys(items)) <==> OneKey(items))
  {
    var ents := Keys(items);
    if AllEqual(ents) {
      forall i, j | 0 <= i < j < |items| ensures items[i].key == items[j].key {
        assert ents[i].key == ents[j].key;
      }
    }
  }

  /** A new key fits unless the leaf is full of one key. */
  lemma {:induction false} SetEndNew<V>(l: Node<V>, order: nat, q: nat, key: nat)
    requires order >= 2 && |l.items| <= order && Sorted(l.items) && q == Lower(l.items, key) && (q < |l.items| ==> l.items[q].key != key)
    ensures SetEnd(l, order, q, 0, key) == if |l.items| == order && OneKey(l.items) then DupKey else Done
  {
    hide Lower;
    hide Keys;
    hide Sorted;
    hide OneKey;
    hide AllEqual;
    hide SplitPoint;
    var ents := Keys(l.items);
    KeysSorted(l.items);
    assert forall i | 0 <= i < q :: l.items[i].key < key;
    assert forall i | q <= i < |ents| :: key < ents[i].key by { AboveFrom(l.items, q, key); }
    if |l.items| == order {
      SplitPointCorrect(ents, key, q, 0);
    }
  }

  lemma {:induction false} AboveFrom<V>(items: seq<Item<V>>, q: nat, key: nat)
    requires Sorted(items) && q <= |items| && (q < |items| ==> items[q].key > key)
    ensures forall i | q <= i < |items| :: items[i].key > key
  {
    forall i | q <= i < |items| ensures items[i].key > key {
      assert i == q || items[q].key <= items[i].key;
    }
  }

  /** Behind a run of its own key, an entry fits a full leaf unless the cut falls right there, where the separator
      would be the key itself, or parts entries of one key. */
  lemma {:induction false} SetEndBehind<V>(l: Node<V>, order: nat, r: nat, n: nat, key: nat)
    requires order >= 2 && |l.items| == order && Sorted(l.items) && 0 < n && r + n < order
    requires RunAt(Keys(l.items), key, r, n)
    ensures var c := SplitPoint(Keys(l.items), key, r + n, n);
            && c.Some? && 0 < c.value < order && (Misplaced(order, r, n, r + n) ==> c.value == PastCut(order, r, n, r + n))
            && SetEnd(l, order, r + n, n, key) ==
                 if c.value == r + n || (Misplaced(order, r, n, r + n) && l.items[c.value - 1].key == l.items[c.value].key) then Torn else Done
  {
    hide Keys;
    hide SplitPoint;
    hide PastCut;
    hide Misplaced;
    hide AllEqual;
    KeysSorted(l.items);
    SplitMoved(Keys(l.items), key, r, n, r + n);
    NotOne(Keys(l.items), r, r + n);
    assert Keys(l.items)[r + n - 1].key == key;
  }

  lemma {:induction false} NotOne(ents: seq<Entry>, i: nat, j: nat)
    requires i < j < |ents| && ents[i].key != ents[j].key
    ensures !AllEqual(ents)
  {
  }
}
