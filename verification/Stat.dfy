/** Which pages are referenced, as a bit per page (lib/stat.c). */
module Stat {

  // ---- bits of a byte

  function Mask(k: nat): bv8
    requires k < 8
  {
    match k
    case 0 => 1
    case 1 => 2
    case 2 => 4
    case 3 => 8
    case 4 => 16
    case 5 => 32
    case 6 => 64
    case _ => 128
  }

  predicate Bit(b: bv8, k: nat)
    requires k < 8
  {
    b & Mask(k) != 0
  }

  function WithBit(b: bv8, k: nat): bv8
    requires k < 8
  {
    b | Mask(k)
  }

  lemma {:induction false} SetBit(b: bv8, k: nat, j: nat)
    requires k < 8 && j < 8
    ensures Bit(WithBit(b, k), j) <==> j == k || Bit(b, j)
  {
  }

  lemma {:induction false} FullByte(b: bv8)
    ensures b == 0xff <==> forall k | 0 <= k < 8 :: Bit(b, k)
  {
    assert (forall k | 0 <= k < 8 :: Bit(b, k)) <==>
           Bit(b, 0) && Bit(b, 1) && Bit(b, 2) && Bit(b, 3) && Bit(b, 4) && Bit(b, 5) && Bit(b, 6) && Bit(b, 7);
  }

  /** The byte whose lowest `n` bits are set. */
  function LowBits(n: nat): bv8
    requires 0 < n < 8
  {
    0xff >> (8 - n)
  }

  lemma {:induction false} PartByte(b: bv8, n: nat)
    requires 0 < n < 8
    ensures b == LowBits(n) <==> (forall k | 0 <= k < 8 :: Bit(b, k) <==> k < n)
  {
    assert (forall k | 0 <= k < 8 :: Bit(b, k) <==> k < n) <==>
           (Bit(b, 0) <==> 0 < n) && (Bit(b, 1) <==> 1 < n) && (Bit(b, 2) <==> 2 < n) && (Bit(b, 3) <==> 3 < n) &&
           (Bit(b, 4) <==> 4 < n) && (Bit(b, 5) <==> 5 < n) && (Bit(b, 6) <==> 6 < n) && (Bit(b, 7) <==> 7 < n);
    if
    case n == 1 =>
    case n == 2 =>
    case n == 3 =>
    case n == 4 =>
    case n == 5 =>
    case n == 6 =>
    case n == 7 =>
  }

  /** Eight bytes read as one word. */
  function Word(v: seq<bv8>): bv64
    requires |v| == 8
  {
    (v[0] as bv64) | ((v[1] as bv64) << 8) | ((v[2] as bv64) << 16) | ((v[3] as bv64) << 24)
    | ((v[4] as bv64) << 32) | ((v[5] as bv64) << 40) | ((v[6] as bv64) << 48) | ((v[7] as bv64) << 56)
  }

  lemma {:induction false} FullWord(v: seq<bv8>)
    requires |v| == 8
    ensures Word(v) == 0xffff_ffff_ffff_ffff <==> forall i | 0 <= i < 8 :: v[i] == 0xff
  {
    WordBytes(v[0], v[1], v[2], v[3], v[4], v[5], v[6], v[7]);
  }

  lemma {:induction false} WordBytes(a: bv8, b: bv8, c: bv8, d: bv8, e: bv8, f: bv8, g: bv8, h: bv8)
    ensures (a as bv64) | ((b as bv64) << 8) | ((c as bv64) << 16) | ((d as bv64) << 24)
            | ((e as bv64) << 32) | ((f as bv64) << 40) | ((g as bv64) << 48) | ((h as bv64) << 56) == 0xffff_ffff_ffff_ffff
            <==> a == 0xff && b == 0xff && c == 0xff && d == 0xff && e == 0xff && f == 0xff && g == 0xff && h == 0xff
  {
  }

  // ---- a bit per page

  predicate InVec(v: seq<bv8>, p: nat) {
    p / 8 < |v| && Bit(v[p / 8], p % 8)
  }

  lemma {:induction false} Slot(m: nat, k: nat)
    requires k < 8
    ensures (8 * m + k) / 8 == m && (8 * m + k) % 8 == k
  {
  }

  lemma {:induction false} SetMark(v: seq<bv8>, p: nat, q: nat)
    requires p / 8 < |v|
    ensures InVec(v[p / 8 := WithBit(v[p / 8], p % 8)], q) <==> InVec(v, q) || q == p
  {
    hide Bit;
    hide WithBit;
    if q / 8 == p / 8 {
      SetBit(v[p / 8], p % 8, q % 8);
    }
  }

  lemma {:induction false} NoMarks(v: seq<bv8>)
    requires forall i | 0 <= i < |v| :: v[i] == 0
    ensures forall p: nat :: !InVec(v, p)
  {
    forall p: nat ensures !InVec(v, p) {
      if p / 8 < |v| {
        NoBit(p % 8);
      }
    }
  }

  lemma {:induction false} NoBit(k: nat)
    requires k < 8
    ensures !Bit(0, k)
  {
  }

  lemma {:induction false} NotFull(v: seq<bv8>, j: nat) returns (p: nat)
    requires j < |v| && v[j] != 0xff
    ensures 8 * j <= p < 8 * j + 8 && !InVec(v, p)
  {
    hide Bit;
    FullByte(v[j]);
    var k :| 0 <= k < 8 && !Bit(v[j], k);
    Slot(j, k);
    p := 8 * j + k;
  }

  lemma {:induction false} AllFull(v: seq<bv8>, n: nat)
    requires n <= |v| && forall j | 0 <= j < n :: v[j] == 0xff
    ensures forall p: nat | p < 8 * n :: InVec(v, p)
  {
    hide Bit;
    forall p: nat | p < 8 * n ensures InVec(v, p) {
      FullByte(v[p / 8]);
    }
  }

  /** The byte in which the pages below `no` end. */
  lemma {:induction false} LastByte(v: seq<bv8>, no: nat)
    requires no / 8 < |v| && no % 8 != 0 && forall p: nat | no < p :: !InVec(v, p)
    ensures v[no / 8] == LowBits(no % 8) <==> (forall p: nat | 8 * (no / 8) <= p < no :: InVec(v, p)) && !InVec(v, no)
  {
    hide Bit;
    hide LowBits;
    var b, m, n := v[no / 8], no / 8, no % 8;
    PartByte(b, n);
    forall k: nat | k < 8 ensures Bit(b, k) <==> InVec(v, 8 * m + k) {
      Slot(m, k);
    }
    forall k: nat | k < 8 ensures (Bit(b, k) <==> k < n) <==> (if k < n then InVec(v, 8 * m + k) else k == n ==> !InVec(v, no)) {
      assert Bit(b, k) <==> InVec(v, 8 * m + k);
    }
    if forall k | 0 <= k < 8 :: Bit(b, k) <==> k < n {
      assert Bit(b, n) <==> n < n;
      forall p: nat | 8 * m <= p < no ensures InVec(v, p) {
        assert Bit(b, p - 8 * m) <==> p - 8 * m < n;
      }
    }
  }

  function Times(s: seq<nat>, p: nat): nat {
    multiset(s)[p]
  }

  /** How often a page met `n` times is noted: not the first time, unless it was marked before. */
  function Again(marked: bool, n: nat, within: bool): nat {
    if !within || n == 0 then 0 else if marked then n else n - 1
  }

  lemma {:induction false} NoTimes(q: nat)
    ensures Times([], q) == 0 && forall b, w :: Again(b, 0, w) == 0
  {
  }

  lemma {:induction false} TimesMore(s: seq<nat>, x: nat, q: nat)
    ensures Times(s + [x], q) == Times(s, q) + (if q == x then 1 else 0)
    ensures Times(s, q) > 0 <==> q in s
  {
  }

  lemma {:induction false} AgainMore(marked: bool, n: nat, within: bool)
    ensures Again(marked, n + 1, within) == Again(marked, n, within) + (if within && (marked || n > 0) then 1 else 0)
  {
  }

  /** The marks, one bit for every page up to `no`. */
  class Marks {
    const no: nat
    const vec: array<bv8>
    var mult: seq<nat>
    var count: nat

    predicate Marked(p: nat)
      reads vec
    {
      InVec(vec[..], p)
    }

    /** No bit behind the one of page `no` is set. */
    ghost predicate Valid()
      reads vec
    {
      vec.Length == no / 8 + 1 && forall p: nat | no < p :: !Marked(p)
    }

    /** ed_stat_new: the pages of the header and those not yet used are accounted for from the start. */
    constructor (hdr: nat, tailStart: nat, tailCount: nat)
      requires hdr <= tailStart
      ensures Valid() && no == tailStart + tailCount && fresh(vec) && mult == [] && count == 0
      ensures forall p: nat :: Marked(p) <==> p < hdr || tailStart <= p < no
    {
      no, mult, count := tailStart + tailCount, [], 0;
      vec := new bv8[(tailStart + tailCount) / 8 + 1](i => 0);
      new;
      NoMarks(vec[..]);
      SetRange(0, hdr);
      SetRange(tailStart, no);
    }

    /** Sets the bits of the pages from `lo` on and before `hi`. */
    method SetRange(lo: nat, hi: nat)
      requires Valid() && lo <= hi <= no
      modifies vec
      ensures Valid() && forall q: nat :: Marked(q) <==> old(Marked(q)) || lo <= q < hi
    {
      hide Bit;
      hide WithBit;
      for p := lo to hi
        invariant forall q: nat :: Marked(q) <==> old(Marked(q)) || lo <= q < p
      {
        var k := p / 8;
        ghost var v := vec[..];
        forall q: nat ensures Marked(q) <==> InVec(v, q) {
        }
        vec[k] := WithBit(vec[k], p % 8);
        assert vec[..] == v[k := WithBit(v[k], p % 8)];
        forall q: nat ensures InVec(vec[..], q) <==> InVec(v, q) || q == p {
          SetMark(v, p, q);
        }
      }
    }

    /** Marks one page after the other: a page is noted again as often as it was met before. */
    method MarkAll(pages: seq<nat>)
      requires Valid()
      modifies this, vec
      ensures Valid() && count == old(count) + |pages|
      ensures forall q: nat :: Marked(q) <==> old(Marked(q)) || (q in pages && q <= no)
      ensures forall q: nat :: Times(mult, q) == old(Times(mult, q)) + Again(old(Marked(q)), Times(pages, q), q <= no)
    {
      hide InVec;
      hide Times;
      hide Again;
      forall q: nat ensures Times(pages[..0], q) == 0 && forall b, w :: Again(b, 0, w) == 0 {
        NoTimes(q);
      }
      for i := 0 to |pages|
        invariant Valid() && count == old(count) + i
        invariant forall q: nat :: Marked(q) <==> old(Marked(q)) || (q in pages[..i] && q <= no)
        invariant forall q: nat :: Times(mult, q) == old(Times(mult, q)) + Again(old(Marked(q)), Times(pages[..i], q), q <= no)
      {
        var x := pages[i];
        ghost var m := mult;
        Mark(x);
        assert pages[..i + 1] == pages[..i] + [x] && m + [] == m;
        forall q: nat ensures Times(mult, q) == old(Times(mult, q)) + Again(old(Marked(q)), Times(pages[..i + 1], q), q <= no) {
          TimesMore(m, x, q);
          TimesMore(pages[..i], x, q);
          AgainMore(old(Marked(q)), Times(pages[..i], q), q <= no);
        }
      }
      assert pages[..|pages|] == pages;
    }

    /** ed_stat_mark: sets the bit of a page, or notes a page met again. It lets page `no` itself pass. */
    method Mark(p: nat)
      requires Valid()
      modifies this, vec
      ensures Valid() && count == old(count) + 1
      ensures forall q: nat :: Marked(q) <==> old(Marked(q)) || (q == p && p <= no)
      ensures mult == old(mult) + if p <= no && old(Marked(p)) then [p] else []
    {
      hide Bit;
      hide WithBit;
      count := count + 1;
      if p > no {
        return;
      }
      var k := p / 8;
      ghost var v := vec[..];
      forall q: nat | no < q ensures !InVec(v, q) {
        assert !Marked(q);
      }
      if !Bit(vec[k], p % 8) {
        vec[k] := WithBit(vec[k], p % 8);
        assert vec[..] == v[k := WithBit(v[k], p % 8)];
        forall q: nat ensures Marked(q) <==> InVec(v, q) || q == p {
          SetMark(v, p, q);
        }
      } else {
        mult := mult + [p];
      }
    }

    /** ed_stat_has_leaks: whether some page below `no` has no mark; a mark on page `no` is mistaken for one
        when it shares a byte with them. */
    method HasLeaks() returns (r: bool)
      requires Valid()
      ensures r <==> (exists p: nat | p < no :: !Marked(p)) || (no % 8 != 0 && Marked(no))
    {
      hide InVec;
      hide Word;
      hide LowBits;
      var i, end := 0, no / 8;
      while end - i >= 8
        invariant i <= end && forall j | 0 <= j < i :: vec[j] == 0xff
      {
        FullWord(vec[i..i + 8]);
        if Word(vec[i..i + 8]) != 0xffff_ffff_ffff_ffff {
          ghost var j :| 0 <= j < 8 && vec[i..i + 8][j] != 0xff;
          ghost var p := NotFull(vec[..], i + j);
          assert !Marked(p);
          return true;
        }
        assert forall j | i <= j < i + 8 :: vec[j] == vec[i..i + 8][j - i];
        i := i + 8;
      }
      while i < end
        invariant i <= end && forall j | 0 <= j < i :: vec[j] == 0xff
      {
        if vec[i] != 0xff {
          ghost var p := NotFull(vec[..], i);
          assert !Marked(p);
          return true;
        }
        i := i + 1;
      }
      AllFull(vec[..], no / 8);
      forall p: nat ensures Marked(p) <==> InVec(vec[..], p) {
      }
      forall p: nat | no < p ensures !InVec(vec[..], p) {
        assert !Marked(p);
      }
      var last := no - no / 8 * 8;
      r := last != 0 && vec[i] != LowBits(last);
      if last != 0 {
        LastByte(vec[..], no);
      }
    }

    /** ed_stat_has_leak. */
    method HasLeak(p: nat) returns (r: bool)
      requires Valid()
      ensures r <==> p < no && !Marked(p)
    {
      r := p < no && !Bit(vec[p / 8], p % 8);
    }
  }

  /** A page of the used part is named by nothing, or the page behind the file is named and shares a byte. */
  predicate Reported(hdr: nat, tailStart: nat, no: nat, refs: seq<nat>) {
    (exists p: nat | hdr <= p < tailStart :: p !in refs) || (no % 8 != 0 && no in refs)
  }

  /** The whole check: given the pages that lists, chain and trees name, some page of the used part of the file is
      missed if and only if none of them names it, but for the page behind the file; and none is noted twice if and
      only if they name pages of that part only, each once. */
  method Survey(hdr: nat, tailStart: nat, tailCount: nat, refs: seq<nat>) returns (leaks: bool, doubles: seq<nat>)
    requires hdr <= tailStart
    ensures var no := tailStart + tailCount;
            && (leaks <==> (exists p: nat | hdr <= p < tailStart :: p !in refs) || (no % 8 != 0 && no in refs))
            && (leaks <==> Reported(hdr, tailStart, no, refs))
    // each page is recorded as often as it was met when it was marked already
    ensures var no := tailStart + tailCount;
            forall p: nat ::
              multiset(doubles)[p] ==
              if p > no then 0
              else if p < hdr || tailStart <= p < no then multiset(refs)[p]
              else if multiset(refs)[p] == 0 then 0 else multiset(refs)[p] - 1
    ensures var no := tailStart + tailCount;
            doubles == [] <==> forall p: nat | p <= no && p in refs :: Times(refs, p) == 1 && !(p < hdr || tailStart <= p < no)
  {
    hide Times;
    hide Again;
    hide InVec;
    var m := new Marks(hdr, tailStart, tailCount);
    NoneMet(m.mult);
    m.MarkAll(refs);
    leaks := m.HasLeaks();
    doubles := m.mult;
    OnceEach(doubles, refs, hdr, tailStart, tailStart + tailCount);
    DoublesAre(doubles, refs, hdr, tailStart, tailStart + tailCount);
    assert forall p: nat | p < m.no && !m.Marked(p) :: hdr <= p < tailStart && p !in refs;
    assert forall p: nat | hdr <= p < tailStart && p !in refs :: p < m.no && !m.Marked(p);
  }

  lemma {:induction false} DoublesAre(mult: seq<nat>, refs: seq<nat>, hdr: nat, tailStart: nat, no: nat)
    requires forall q: nat :: Times(mult, q) == Again(q < hdr || tailStart <= q < no, Times(refs, q), q <= no)
    ensures forall p: nat ::
              multiset(mult)[p] ==
              if p > no then 0
              else if p < hdr || tailStart <= p < no then multiset(refs)[p]
              else if multiset(refs)[p] == 0 then 0 else multiset(refs)[p] - 1
  {
    forall p: nat ensures multiset(mult)[p] == Again(p < hdr || tailStart <= p < no, multiset(refs)[p], p <= no) {
      assert Times(mult, p) == multiset(mult)[p] && Times(refs, p) == multiset(refs)[p];
    }
  }

  lemma {:induction false} OnceEach(mult: seq<nat>, refs: seq<nat>, hdr: nat, tailStart: nat, no: nat)
    requires forall q: nat :: Times(mult, q) == Again(q < hdr || tailStart <= q < no, Times(refs, q), q <= no)
    ensures mult == [] <==> forall p: nat | p <= no && p in refs :: Times(refs, p) == 1 && !(p < hdr || tailStart <= p < no)
  {
    hide Times;
    NoneNoted(mult);
    forall p: nat ensures Times(refs, p) > 0 <==> p in refs {
      TimesMore(refs, 0, p);
    }
    if mult == [] {
      forall p: nat | p <= no && p in refs ensures Times(refs, p) == 1 && !(p < hdr || tailStart <= p < no) {
        assert Times(mult, p) == 0;
      }
    } else {
      var q: nat :| Times(mult, q) != 0;
      assert q <= no && q in refs;
    }
  }

  lemma {:induction false} NoneMet(s: seq<nat>)
    requires s == []
    ensures forall q: nat :: Times(s, q) == 0
  {
  }

  lemma {:induction false} NoneNoted(s: seq<nat>)
    ensures s == [] <==> forall q: nat :: Times(s, q) == 0
  {
    if s != [] {
      assert s[0] in multiset(s) && Times(s, s[0]) > 0;
    }
  }

  /** Every page of the used part is named, and the page behind the file as well: where the file does not end with a
      byte of marks, that is reported as a leak. */
  lemma {:induction false} PastEnd(hdr: nat, tailStart: nat, tailCount: nat)
    requires hdr <= tailStart
    ensures var refs, no := seq(tailStart - hdr, i requires 0 <= i => hdr + i) + [tailStart + tailCount], tailStart + tailCount;
            && (forall p: nat | hdr <= p < tailStart :: p in refs && Times(refs, p) == 1)
            && (Reported(hdr, tailStart, no, refs) <==> no % 8 != 0)
  {
    var row, no := seq(tailStart - hdr, i requires 0 <= i => hdr + i), tailStart + tailCount;
    forall p: nat | hdr <= p < tailStart ensures p in row + [no] && Times(row + [no], p) == 1 {
      assert row[p - hdr] == p && (row + [no])[p - hdr] == p;
      assert row == row[..p - hdr] + [p] + row[p - hdr + 1..];
      assert p !in row[..p - hdr] && p !in row[p - hdr + 1..];
    }
    assert (row + [no])[|row|] == no;
  }
}
