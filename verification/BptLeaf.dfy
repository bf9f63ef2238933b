/** Splitting a full leaf (lib/bpt.c split_point and split_leaf) without parting equal keys. */
module BptLeaf {
  import opened BptTree

  /** The first entry of the run of equal keys around `i`. */
  function RunStart(ents: seq<Entry>, i: nat): nat
    requires i < |ents|
  {
    if i > 0 && ents[i - 1].key == ents[i].key then RunStart(ents, i - 1) else i
  }

  /** The first entry from `i` on whose key is not `key`. */
  function RunEnd(ents: seq<Entry>, i: nat, key: nat): nat
    requires i <= |ents|
    decreases |ents| - i
  {
    if i < |ents| && ents[i].key == key then RunEnd(ents, i + 1, key) else i
  }

  /** The cursor sits where a search for `key` puts it: on no match, between smaller and greater keys;
      otherwise on the last of the `nm` entries of that key visited since its first. */
  predicate AtKey(ents: seq<Entry>, key: nat, idx: nat, nm: nat) {
    && idx <= |ents|
    && (nm == 0 ==>
          && (forall i | 0 <= i < idx :: ents[i].key < key)
          && (forall i | idx <= i < |ents| :: key < ents[i].key))
    && (nm > 0 ==>
          && idx < |ents| && nm <= idx + 1
          && (forall i | idx - nm < i <= idx :: ents[i].key == key)
          && (idx - nm >= 0 ==> ents[idx - nm].key < key))
  }

  /** split_point: where to cut a full leaf, or None for ED_EINDEX_DUPKEY. */
  function SplitPoint(ents: seq<Entry>, key: nat, idx: nat, nm: nat): Option<nat>
    requires |ents| >= 2 && idx <= |ents| && nm <= idx + 1 && (nm > 0 ==> idx < |ents|)
  {
    var n, mid := |ents|, |ents| / 2;
    var near := nm > 0 && mid <= idx && mid >= idx - nm + 1;
    var k := if near then key else ents[mid].key;
    var min := if near || k == key then idx - nm + 1 else RunStart(ents, mid);
    var max := if near then idx + 1 else mid + 1;
    if min == mid then Some(mid)
    else
      var end := RunEnd(ents, max, k);
      if min == 0 && end == n then None
      else Some(if min >= n - end then min else end)
  }

  lemma {:induction false} RunStartFacts(ents: seq<Entry>, i: nat)
    requires i < |ents| && SortedEntries(ents)
    ensures var r := RunStart(ents, i);
            && r <= i && (forall j | r <= j <= i :: ents[j].key == ents[i].key)
            && (r > 0 ==> ents[r - 1].key < ents[i].key)
    decreases i
  {
    if i > 0 && ents[i - 1].key == ents[i].key {
      RunStartFacts(ents, i - 1);
    }
  }

  lemma {:induction false} RunEndFacts(ents: seq<Entry>, i: nat, key: nat)
    requires i <= |ents|
    ensures var r := RunEnd(ents, i, key);
            && i <= r <= |ents| && (forall j | i <= j < r :: ents[j].key == key)
            && (r < |ents| ==> ents[r].key != key)
    decreases |ents| - i
  {
    if i < |ents| && ents[i].key == key {
      RunEndFacts(ents, i + 1, key);
    }
  }

  predicate AllEqual(ents: seq<Entry>) {
    forall i, j | 0 <= i < j < |ents| :: ents[i].key == ents[j].key
  }

  /** The start of the run around the middle, as split_point finds it. */
  function MidStart(ents: seq<Entry>, key: nat, idx: nat, nm: nat): int
    requires |ents| >= 2
  {
    var mid := |ents| / 2;
    if (nm > 0 && mid <= idx && mid >= idx - nm + 1) || ents[mid].key == key then idx - nm + 1 else RunStart(ents, mid)
  }

  lemma {:induction false} MidStartFacts(ents: seq<Entry>, key: nat, idx: nat, nm: nat)
    requires |ents| >= 2 && SortedEntries(ents) && AtKey(ents, key, idx, nm)
    ensures var mid, min := |ents| / 2, MidStart(ents, key, idx, nm);
            && 0 <= min <= mid && ents[min].key == ents[mid].key
            && (min > 0 ==> ents[min - 1].key < ents[mid].key)
  {
    var mid := |ents| / 2;
    RunStartFacts(ents, mid);
    if nm > 0 && ents[mid].key == key {
      assert idx - nm < mid;
    }
  }

  /** The end of that run. */
  function MidEnd(ents: seq<Entry>, key: nat, idx: nat, nm: nat): nat
    requires |ents| >= 2 && (nm > 0 ==> idx < |ents|)
  {
    var mid := |ents| / 2;
    if nm > 0 && mid <= idx && mid >= idx - nm + 1 then RunEnd(ents, idx + 1, key) else RunEnd(ents, mid + 1, ents[mid].key)
  }

  lemma {:induction false} MidEndFacts(ents: seq<Entry>, key: nat, idx: nat, nm: nat)
    requires |ents| >= 2 && SortedEntries(ents) && AtKey(ents, key, idx, nm)
    ensures var mid, end := |ents| / 2, MidEnd(ents, key, idx, nm);
            && mid < end <= |ents| && ents[end - 1].key == ents[mid].key
            && (end < |ents| ==> ents[mid].key < ents[end].key)
  {
    var mid := |ents| / 2;
    if nm > 0 && mid <= idx && mid >= idx - nm + 1 {
      RunEndFacts(ents, idx + 1, key);
    } else {
      RunEndFacts(ents, mid + 1, ents[mid].key);
    }
  }

  lemma {:induction false} EqualEnds(ents: seq<Entry>)
    requires |ents| >= 2 && SortedEntries(ents)
    ensures AllEqual(ents) <==> ents[0].key == ents[|ents| - 1].key
  {
    if ents[0].key == ents[|ents| - 1].key {
      forall i, j | 0 <= i < j < |ents| ensures ents[i].key == ents[j].key {
        assert ents[0].key <= ents[i].key <= ents[j].key <= ents[|ents| - 1].key;
      }
    } else {
      assert 0 < |ents| - 1;
    }
  }

  /** A full leaf is refused exactly when all its keys are equal; otherwise it is cut at an inner
      position where the key changes, so equal keys stay together. */
  lemma {:induction false} SplitPointCorrect(ents: seq<Entry>, key: nat, idx: nat, nm: nat)
    requires |ents| >= 2 && SortedEntries(ents) && AtKey(ents, key, idx, nm)
    ensures var r := SplitPoint(ents, key, idx, nm);
            && (r.None? <==> AllEqual(ents))
            && (r.Some? ==> 0 < r.value < |ents| && ents[r.value - 1].key < ents[r.value].key)
  {
    hide SortedEntries;
    hide RunStart;
    hide RunEnd;
    var n, mid := |ents|, |ents| / 2;
    EqualEnds(ents);
    MidStartFacts(ents, key, idx, nm);
    MidEndFacts(ents, key, idx, nm);
  }

  /** No other place where the key changes leaves a larger smaller half. */
  lemma {:induction false} SplitPointBalanced(ents: seq<Entry>, key: nat, idx: nat, nm: nat, c: nat)
    requires |ents| >= 2 && SortedEntries(ents) && AtKey(ents, key, idx, nm)
    requires 0 < c < |ents| && ents[c - 1].key < ents[c].key
    ensures var r, n := SplitPoint(ents, key, idx, nm), |ents|;
            && r.Some? && 0 < r.value < n
            && (c <= r.value || n - c <= r.value) && (c <= n - r.value || n - c <= n - r.value)
  {
    hide RunStart;
    hide RunEnd;
    var n, mid := |ents|, |ents| / 2;
    EqualEnds(ents);
    MidStartFacts(ents, key, idx, nm);
    MidEndFacts(ents, key, idx, nm);
    SplitPointCorrect(ents, key, idx, nm);
    assert ents[0].key <= ents[c - 1].key && ents[c].key <= ents[n - 1].key;
  }

  /** The entries of `key` are the `l` ones from `r` on. */
  predicate RunAt(ents: seq<Entry>, key: nat, r: nat, l: nat) {
    && r + l <= |ents|
    && (forall i | 0 <= i < r :: ents[i].key < key)
    && (forall i | r <= i < r + l :: ents[i].key == key)
    && (forall i | r + l <= i < |ents| :: key < ents[i].key)
  }

  /** The matches counted when a search stopped at `r` and the cursor moved on to `idx`. */
  function Matched(r: nat, l: nat, idx: nat): nat
    requires r <= idx
  {
    if idx - r + 1 < l then idx - r + 1 else l
  }

  /** The cursor has left the run and split_point still takes it for the run's end. */
  predicate Misplaced(n: nat, r: nat, l: nat, idx: nat) {
    var mid := n / 2;
    l > 0 && r + l <= idx && r <= mid <= idx && (idx - l + 1 <= mid || mid < r + l)
  }

  /** Where it cuts then. */
  function PastCut(n: nat, r: nat, l: nat, idx: nat): int {
    var start := idx - l + 1;
    var end := if start <= n / 2 then idx + 1 else r + l;
    if start == n / 2 || start >= n - end then start else end
  }

  /** After a search and any number of steps to the right within the leaf, the cut is at an inner position where
      the key changes, or refused for equal keys, unless the cursor has left the run and is taken for its end; then it
      is at a place that depends on the positions only, and right if and only if the key happens to change there. */
  lemma {:induction false} SplitMoved(ents: seq<Entry>, key: nat, r: nat, l: nat, idx: nat)
    requires |ents| >= 2 && SortedEntries(ents) && RunAt(ents, key, r, l) && r <= idx < |ents|
    ensures var c, n := SplitPoint(ents, key, idx, Matched(r, l, idx)), |ents|;
            if Misplaced(n, r, l, idx) then c == Some(PastCut(n, r, l, idx)) && 0 < PastCut(n, r, l, idx) < n
            else (c.None? <==> AllEqual(ents)) && (c.Some? ==> 0 < c.value < n && ents[c.value - 1].key < ents[c.value].key)
  {
    hide SortedEntries;
    hide RunStart;
    hide RunEnd;
    hide AllEqual;
    if Misplaced(|ents|, r, l, idx) {
      SplitMisplaced(ents, key, r, l, idx);
    } else if l == 0 || r + l <= idx {
      SplitElsewhere(ents, key, idx, Matched(r, l, idx));
    } else {
      SplitPointCorrect(ents, key, idx, Matched(r, l, idx));
    }
  }

  lemma {:induction false} SplitMisplaced(ents: seq<Entry>, key: nat, r: nat, l: nat, idx: nat)
    requires |ents| >= 2 && RunAt(ents, key, r, l) && r <= idx < |ents| && Misplaced(|ents|, r, l, idx)
    ensures var n := |ents|; SplitPoint(ents, key, idx, l) == Some(PastCut(n, r, l, idx)) && 0 < PastCut(n, r, l, idx) < n
  {
    hide RunStart;
    hide RunEnd;
    var mid := |ents| / 2;
    if idx - l + 1 <= mid {
      RunEndAt(ents, key, r, l, idx + 1);
    } else {
      RunEndAt(ents, key, r, l, mid + 1);
    }
  }

  lemma {:induction false} RunEndAt(ents: seq<Entry>, key: nat, r: nat, l: nat, i: nat)
    requires RunAt(ents, key, r, l) && r <= i <= |ents|
    ensures RunEnd(ents, i, key) == if i < r + l then r + l else i
    decreases |ents| - i
  {
    if i < r + l {
      RunEndAt(ents, key, r, l, i + 1);
    }
  }

  /** Away from the run the cut does not depend on the cursor. */
  lemma {:induction false} SplitElsewhere(ents: seq<Entry>, key: nat, idx: nat, nm: nat)
    requires |ents| >= 2 && SortedEntries(ents) && idx < |ents| && nm <= idx + 1 && ents[|ents| / 2].key != key
    requires !(nm > 0 && |ents| / 2 <= idx && |ents| / 2 >= idx - nm + 1)
    ensures var c := SplitPoint(ents, key, idx, nm);
            (c.None? <==> AllEqual(ents)) && (c.Some? ==> 0 < c.value < |ents| && ents[c.value - 1].key < ents[c.value].key)
  {
    hide SortedEntries;
    hide RunStart;
    hide RunEnd;
    hide AllEqual;
    EqualEnds(ents);
    MiddleRun(ents, |ents| / 2);
  }

  lemma {:induction false} MiddleRun(ents: seq<Entry>, i: nat)
    requires i < |ents| && SortedEntries(ents)
    ensures var a, b := RunStart(ents, i), RunEnd(ents, i + 1, ents[i].key);
            && a <= i < b <= |ents| && (a > 0 ==> ents[a - 1].key < ents[a].key) && (b < |ents| ==> ents[b - 1].key < ents[b].key)
            && (a == 0 && b == |ents| <==> ents[0].key == ents[|ents| - 1].key)
  {
    RunStartFacts(ents, i);
    RunEndFacts(ents, i + 1, ents[i].key);
  }

  /** Two entries of one key parted, by a cursor right behind them. */
  lemma {:induction false} RunParted()
    ensures var ents := [Entry(1, 0), Entry(5, 0), Entry(5, 0), Entry(9, 0)];
            RunAt(ents, 5, 1, 2) && SplitPoint(ents, 5, 3, Matched(1, 2, 3)) == Some(2) && ents[1].key == ents[2].key
  {
  }

  // ---- the two halves around a new entry

  function InsertAt(ents: seq<Entry>, idx: nat, e: Entry): seq<Entry>
    requires idx <= |ents|
  {
    ents[..idx] + [e] + ents[idx..]
  }

  /** The separator split_leaf chooses: the searched key if the new entry will be the first on the right. */
  function SplitKey(ents: seq<Entry>, key: nat, idx: nat, mid: nat): nat
    requires mid < |ents|
  {
    if mid == idx then key else ents[mid].key
  }

  function LeftEntries(ents: seq<Entry>, idx: nat, mid: nat, e: Entry): seq<Entry>
    requires idx <= |ents| && mid <= |ents|
  {
    if idx < mid then InsertAt(ents[..mid], idx, e) else ents[..mid]
  }

  function RightEntries(ents: seq<Entry>, idx: nat, mid: nat, e: Entry): seq<Entry>
    requires idx <= |ents| && mid <= |ents|
  {
    if idx < mid then ents[mid..] else InsertAt(ents[mid..], idx - mid, e)
  }

  /** The entry may go at `idx`: in order, and inside the leaf's key range. */
  predicate Fits(ents: seq<Entry>, idx: nat, e: Entry, lo: int, hi: int) {
    && idx <= |ents| && lo <= e.key <= hi
    && (idx > 0 ==> ents[idx - 1].key <= e.key)
    && (idx < |ents| ==> e.key <= ents[idx].key)
  }

  lemma {:induction false} InsertAtSorted(ents: seq<Entry>, idx: nat, e: Entry, lo: int, hi: int)
    requires SortedEntries(ents) && Within(ents, lo, hi) && Fits(ents, idx, e, lo, hi)
    ensures SortedEntries(InsertAt(ents, idx, e)) && Within(InsertAt(ents, idx, e), lo, hi)
  {
    var r := InsertAt(ents, idx, e);
    assert forall i | 0 <= i < |r| :: r[i] == if i < idx then ents[i] else if i == idx then e else ents[i - 1];
  }

  lemma {:induction false} HalvesJoin(ents: seq<Entry>, idx: nat, mid: nat, e: Entry)
    requires idx <= |ents| && mid <= |ents|
    ensures LeftEntries(ents, idx, mid, e) + RightEntries(ents, idx, mid, e) == InsertAt(ents, idx, e)
  {
  }

  /** An entry in the window but below the key searched for lands right of a separator above it. */
  lemma {:induction false} SeparatorTooHigh()
    ensures var ents, e := [Entry(1, 0), Entry(5, 0)], Entry(2, 0);
            && AtKey(ents, 3, 1, 0) && SplitPoint(ents, 3, 1, 0) == Some(1) && Fits(ents, 1, e, 0, 9)
            && SplitKey(ents, 3, 1, 1) == 3 && e in RightEntries(ents, 1, 1, e)
  {
    var ents, e := [Entry(1, 0), Entry(5, 0)], Entry(2, 0);
    assert RunStart(ents, 1) == 1;
    assert RightEntries(ents, 1, 1, e)[0] == e;
  }

  /** What split_leaf asserts of a cut: the separator is above the left half and not above the right one. */
  predicate CutAt(ents: seq<Entry>, key: nat, idx: nat, mid: nat) {
    0 < mid < |ents| && ents[mid - 1].key < SplitKey(ents, key, idx, mid) <= ents[mid].key
  }

  /** Then both halves around the new entry are in order, and the separator parts them exactly unless the cut is at
      the cursor and the entry is below the key searched for. */
  lemma {:induction false} HalvesCut(ents: seq<Entry>, key: nat, idx: nat, mid: nat, e: Entry, lo: int, hi: int)
    requires SortedEntries(ents) && Within(ents, lo, hi) && CutAt(ents, key, idx, mid) && Fits(ents, idx, e, lo, hi)
    ensures var l, r, k := LeftEntries(ents, idx, mid, e), RightEntries(ents, idx, mid, e), SplitKey(ents, key, idx, mid);
            && SortedEntries(l) && SortedEntries(r) && Within(l, lo, hi) && Within(r, lo, hi)
            && lo < k && k <= hi
            && (Within(l, lo, k - 1) && Within(r, k, hi) <==> !(mid == idx && e.key < key))
  {
    hide SortedEntries;
    var k := SplitKey(ents, key, idx, mid);
    HalvesJoin(ents, idx, mid, e);
    InsertAtSorted(ents, idx, e, lo, hi);
    PartsSorted(LeftEntries(ents, idx, mid, e), RightEntries(ents, idx, mid, e), lo, hi);
    LeftBelow(ents, idx, mid, e, lo, hi, k);
    RightAbove(ents, idx, mid, e, lo, hi, k);
  }

  /** Both halves keep their order and the range, and the chosen key separates them exactly when the
      new entry does not land, as first on the right, below the searched key. */
  lemma {:induction false} HalvesSeparated(ents: seq<Entry>, key: nat, idx: nat, nm: nat, mid: nat, e: Entry, lo: int, hi: int)
    requires |ents| >= 2 && SortedEntries(ents) && Within(ents, lo, hi)
    requires AtKey(ents, key, idx, nm) && SplitPoint(ents, key, idx, nm) == Some(mid)
    requires Fits(ents, idx, e, lo, hi)
    ensures CutAt(ents, key, idx, mid)
    ensures var l, r, k := LeftEntries(ents, idx, mid, e), RightEntries(ents, idx, mid, e), SplitKey(ents, key, idx, mid);
            && SortedEntries(l) && SortedEntries(r) && lo < k && k <= hi
            && (Within(l, lo, k - 1) && Within(r, k, hi) <==> !(mid == idx && e.key < key))
  {
    hide SortedEntries;
    hide SplitPoint;
    hide AtKey;
    hide AllEqual;
    SplitPointCorrect(ents, key, idx, nm);
    KeyBetween(ents, key, idx, nm, mid);
    HalvesCut(ents, key, idx, mid, e, lo, hi);
  }

  lemma {:induction false} PartsSorted(l: seq<Entry>, r: seq<Entry>, lo: int, hi: int)
    requires SortedEntries(l + r) && Within(l + r, lo, hi)
    ensures SortedEntries(l) && SortedEntries(r) && Within(l, lo, hi) && Within(r, lo, hi)
  {
    assert l == (l + r)[..|l|] && r == (l + r)[|l|..];
  }

  lemma {:induction false} KeyBetween(ents: seq<Entry>, key: nat, idx: nat, nm: nat, mid: nat)
    requires AtKey(ents, key, idx, nm) && 0 < mid < |ents| && ents[mid - 1].key < ents[mid].key
    ensures ents[mid - 1].key < SplitKey(ents, key, idx, mid) <= ents[mid].key
  {
  }

  lemma {:induction false} LeftBelow(ents: seq<Entry>, idx: nat, mid: nat, e: Entry, lo: int, hi: int, k: nat)
    requires SortedEntries(ents) && Within(ents, lo, hi) && Fits(ents, idx, e, lo, hi)
    requires 0 < mid < |ents| && ents[mid - 1].key < k
    ensures Within(LeftEntries(ents, idx, mid, e), lo, k - 1)
  {
    var l := LeftEntries(ents, idx, mid, e);
    forall i | 0 <= i < |l| ensures lo <= l[i].key <= k - 1 {
      if idx < mid {
        assert l[i] == if i < idx then ents[i] else if i == idx then e else ents[i - 1];
        assert ents[idx].key <= ents[mid - 1].key;
      }
    }
  }

  lemma {:induction false} RightAbove(ents: seq<Entry>, idx: nat, mid: nat, e: Entry, lo: int, hi: int, k: nat)
    requires SortedEntries(ents) && Within(ents, lo, hi) && Fits(ents, idx, e, lo, hi)
    requires 0 < mid < |ents| && k <= ents[mid].key
    ensures Within(RightEntries(ents, idx, mid, e), k, hi) <==> !(mid == idx && e.key < k)
  {
    var r := RightEntries(ents, idx, mid, e);
    forall i | 0 <= i < |r| ensures (mid != idx || i != 0 ==> k <= r[i].key) && r[i].key <= hi {
      if idx < mid {
        assert r[i] == ents[mid + i];
        assert ents[mid].key <= ents[mid + i].key;
      } else {
        assert r[i] == if mid + i < idx then ents[mid + i] else if mid + i == idx then e else ents[mid + i - 1];
        assert mid < idx ==> ents[mid].key <= ents[idx - 1].key <= e.key;
      }
    }
    if mid == idx {
      assert r[0] == e;
    }
  }
}
