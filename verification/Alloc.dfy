/** Handing out and taking back pages (lib/pg.c ed_alloc, map_end_pages, ed_free_pgno). */
module Alloc {
  import opened Gc

  const ALLOC_COUNT: nat := 16

  // ---- the chain of gc pages, head first

  ghost predicate ChainOk(chain: seq<Page>) {
    && chain != []
    && (forall i | 0 <= i < |chain| :: PageOk(chain[i]))
    && (forall i | 1 <= i < |chain| :: chain[i].lists != [])
  }

  function Nos(chain: seq<Page>): seq<nat> {
    seq(|chain|, i requires 0 <= i < |chain| => chain[i].no)
  }

  ghost function ChainTags(chain: seq<Page>): seq<Tag>
    requires forall i | 0 <= i < |chain| :: PageOk(chain[i])
  {
    if chain == [] then [] else PageTags(chain[0]) + ChainTags(chain[1..])
  }

  function TagNos(tags: seq<Tag>): seq<nat> {
    seq(|tags|, i requires 0 <= i < |tags| => tags[i].no)
  }

  lemma {:induction false} TagNosAppend(a: seq<Tag>, b: seq<Tag>)
    ensures TagNos(a + b) == TagNos(a) + TagNos(b)
  {
  }

  lemma {:induction false} ChainTagsAppend(a: seq<Page>, b: seq<Page>)
    requires (forall i | 0 <= i < |a| :: PageOk(a[i])) && (forall i | 0 <= i < |b| :: PageOk(b[i]))
    ensures forall i | 0 <= i < |a + b| :: PageOk((a + b)[i])
    ensures ChainTags(a + b) == ChainTags(a) + ChainTags(b)
    decreases |a|
  {
    hide PageOk;
    hide PageTags;
    if a == [] {
      assert a + b == b;
    } else {
      assert (a + b)[1..] == a[1..] + b;
      ChainTagsAppend(a[1..], b);
    }
  }

  /** A list no reader may still need: one without a transaction, or one older than every reader. */
  predicate Ripe(xid: nat, xmin: int) {
    xid == 0 || xid < xmin
  }

  ghost predicate AllRipe(tags: seq<Tag>, xmin: int) {
    forall i | 0 <= i < |tags| :: Ripe(tags[i].xid, xmin)
  }

  /** The head of the chain gives nothing more. */
  predicate Blocked(chain: seq<Page>, xmin: int)
    requires chain != []
  {
    if chain[0].lists == [] then |chain| == 1 else !Ripe(chain[0].lists[0].xid, xmin)
  }

  // ---- taking pages from the lists

  /** What a step of the loop in ed_alloc takes from the first list. */
  lemma {:induction false} SkipTags(g: Page, n: nat)
    requires PageOk(g) && g.lists != [] && n <= |g.lists[0].pages| - g.nskip
    ensures var h := g.(nskip := g.nskip + n);
            PageOk(h) && PageTags(g) == Tags(g.lists[0].xid, g.lists[0].pages[g.nskip..g.nskip + n]) + PageTags(h)
  {
    hide Tags;
    hide SizeOf;
    hide ListTags;
    var l := g.lists[0];
    assert l.pages[g.nskip..] == l.pages[g.nskip..g.nskip + n] + l.pages[g.nskip + n..];
    TagsAppend(l.xid, l.pages[g.nskip..g.nskip + n], l.pages[g.nskip + n..]);
  }

  /** The first list used up. */
  function Dropped(g: Page): Page
    requires g.lists != []
  {
    g.(head := g.head + ListSize(|g.lists[0].pages|), lists := g.lists[1..], nskip := 0)
  }

  lemma {:induction false} DropTags(g: Page)
    requires PageOk(g) && g.lists != []
    ensures PageOk(Dropped(g)) && PageTags(g) == Tags(g.lists[0].xid, g.lists[0].pages[g.nskip..]) + PageTags(Dropped(g))
  {
    var h := Dropped(g);
    if h.lists != [] {
      assert h.lists[0].pages[0..] == h.lists[0].pages;
    }
  }

  lemma {:induction false} HeadTags(chain: seq<Page>, g: Page, taken: seq<Tag>)
    requires ChainOk(chain) && PageOk(g) && PageTags(chain[0]) == taken + PageTags(g)
    ensures ChainOk([g] + chain[1..]) && ChainTags(chain) == taken + ChainTags([g] + chain[1..])
  {
    hide PageOk;
    hide PageTags;
    assert ([g] + chain[1..])[1..] == chain[1..];
  }

  lemma {:induction false} HeadNos(chain: seq<Page>, g: Page)
    requires chain != [] && g.no == chain[0].no
    ensures Nos([g] + chain[1..]) == Nos(chain)
  {
  }

  lemma {:induction false} HeadGone(chain: seq<Page>)
    requires ChainOk(chain) && chain[0].lists == [] && |chain| > 1
    ensures ChainOk(chain[1..]) && ChainTags(chain) == ChainTags(chain[1..]) && Nos(chain) == [chain[0].no] + Nos(chain[1..])
  {
    hide PageOk;
    hide PageTags;
    EmptyTags(chain[0]);
    assert [] + ChainTags(chain[1..]) == ChainTags(chain[1..]);
  }

  lemma {:induction false} EmptyTags(g: Page)
    requires PageOk(g) && g.lists == []
    ensures PageTags(g) == []
  {
  }

  /** Up to `want` pages of the first list of a gc page, which is dropped when used up. */
  method TakeList(g: Page, want: nat) returns (h: Page, pages: seq<nat>, more: bool)
    requires PageOk(g) && g.lists != []
    ensures PageOk(h) && h.no == g.no && |pages| <= want
    ensures PageTags(g) == Tags(g.lists[0].xid, pages) + PageTags(h)
    ensures if more then |pages| == |g.lists[0].pages| - g.nskip && h == Dropped(g)
            else |pages| == want < |g.lists[0].pages| - g.nskip && h == g.(nskip := g.nskip + want)
  {
    hide SizeOf;
    var list := g.lists[0];
    var left := |list.pages| - g.nskip;
    var use := if left > want then want else left;
    pages := list.pages[g.nskip..g.nskip + use];
    if use < left {
      SkipTags(g, use);
      return g.(nskip := g.nskip + use), pages, false;
    }
    DropTags(g);
    assert pages == list.pages[g.nskip..];
    h := Dropped(g);
    more := true;
  }

  lemma {:induction false} TakenMore(taken: seq<Tag>, xid: nat, pages: seq<nat>, xmin: int)
    requires AllRipe(taken, xmin) && Ripe(xid, xmin)
    ensures AllRipe(taken + Tags(xid, pages), xmin)
    ensures TagNos(taken + Tags(xid, pages)) == TagNos(taken) + pages
  {
  }

  /** What ed_alloc leaves of the chain, as a function of the chain before. */
  function Left(chain: seq<Page>, npg: nat, xmin: int): (r: seq<Page>)
    requires chain != []
    ensures r != []
    decreases |chain|, |chain[0].lists|, 1
  {
    if npg == 0 then chain
    else if chain[0].lists != [] then LeftFrom(chain, npg, xmin)
    else if |chain| == 1 then chain
    else LeftFrom(chain[1..], npg - 1, xmin)
  }

  function LeftFrom(chain: seq<Page>, want: nat, xmin: int): (r: seq<Page>)
    requires chain != []
    ensures r != []
    decreases |chain|, |chain[0].lists|, 0
  {
    var g := chain[0];
    if g.lists == [] || !Ripe(g.lists[0].xid, xmin) then chain
    else if want < |g.lists[0].pages| - g.nskip then [g.(nskip := g.nskip + want)] + chain[1..]
    else Left([Dropped(g)] + chain[1..], want - (|g.lists[0].pages| - g.nskip), xmin)
  }

  lemma {:induction false} LeftStep(chain: seq<Page>, npg: nat, xmin: int)
    requires chain != []
    ensures var r := Left(chain, npg, xmin);
            && (npg == 0 || (chain[0].lists == [] && |chain| == 1) ==> r == chain)
            && (npg > 0 && chain[0].lists != [] ==> r == LeftFrom(chain, npg, xmin))
            && (npg > 0 && chain[0].lists == [] && |chain| > 1 ==> r == LeftFrom(chain[1..], npg - 1, xmin))
  {
  }

  lemma {:induction false} LeftFromStep(chain: seq<Page>, want: nat, xmin: int)
    requires chain != [] && chain[0].lists != []
    ensures var g, r := chain[0], LeftFrom(chain, want, xmin);
            var left := |g.lists[0].pages| - g.nskip;
            && (!Ripe(g.lists[0].xid, xmin) ==> r == chain)
            && (Ripe(g.lists[0].xid, xmin) && want < left ==> r == [g.(nskip := g.nskip + want)] + chain[1..])
            && (Ripe(g.lists[0].xid, xmin) && want >= left ==> r == Left([Dropped(g)] + chain[1..], want - left, xmin))
  {
    hide Dropped;
  }

  /** The loop of ed_alloc: up to `npg` pages, gc pages that ran empty first, then from the lists in order,
      as long as the list at hand is ripe. */
  method Take(from: seq<Page>, npg: nat, xmin: int) returns (chain: seq<Page>, recycled: seq<nat>, pages: seq<nat>, ghost taken: seq<Tag>)
    requires ChainOk(from)
    ensures ChainOk(chain) && |recycled| + |pages| <= npg && pages == TagNos(taken) && chain == Left(from, npg, xmin)
    ensures Nos(from) == recycled + Nos(chain)
    ensures ChainTags(from) == taken + ChainTags(chain)
    ensures AllRipe(taken, xmin)
    ensures |recycled| + |pages| < npg ==> Blocked(chain, xmin)
    // that is: only lists under no transaction or one below xmin, and short only where there is no such list
    ensures forall i | 0 <= i < |taken| :: taken[i].xid == 0 || taken[i].xid < xmin
    ensures |recycled| + |pages| < npg ==>
              if chain[0].lists == [] then |chain| == 1 else chain[0].lists[0].xid != 0 && chain[0].lists[0].xid >= xmin
  {
    hide PageOk;
    hide PageTags;
    hide ChainTags;
    hide TagNos;
    hide AllRipe;
    hide Tags;
    hide Dropped;
    hide Left;
    hide LeftFrom;
    hide Nos;
    hide Ripe;
    hide SizeOf;
    chain, recycled, pages, taken := from, [], [], [];
    assert TagNos([]) == [] && AllRipe([], xmin) by { NothingTaken(xmin); }
    while |pages| + |recycled| < npg
      invariant ChainOk(chain) && |recycled| + |pages| <= npg && pages == TagNos(taken)
      invariant Nos(from) == recycled + Nos(chain)
      invariant ChainTags(from) == taken + ChainTags(chain)
      invariant AllRipe(taken, xmin)
      invariant Left(from, npg, xmin) == Left(chain, npg - |pages| - |recycled|, xmin)
      decreases |chain|, |chain[0].lists|
    {
      LeftStep(chain, npg - |pages| - |recycled|, xmin);
      if chain[0].lists == [] {
        if |chain| == 1 {
          break;
        }
        HeadGone(chain);
        recycled, chain := recycled + [chain[0].no], chain[1..];
      }
      LeftFromStep(chain, npg - |pages| - |recycled|, xmin);
      var list := chain[0].lists[0];
      if !Ripe(list.xid, xmin) {
        break;
      }
      var h, part, more := TakeList(chain[0], npg - |pages| - |recycled|);
      DropShorter(chain[0]);
      HeadTags(chain, h, Tags(list.xid, part));
      TakenMore(taken, list.xid, part, xmin);
      pages, taken := pages + part, taken + Tags(list.xid, part);
      HeadNos(chain, h);
      chain := [h] + chain[1..];
      if !more {
        break;
      }
    }
    LeftStep(chain, 0, xmin);
    RipeIs(taken, chain, xmin);
  }

  lemma {:induction false} RipeIs(tags: seq<Tag>, chain: seq<Page>, xmin: int)
    requires chain != []
    ensures AllRipe(tags, xmin) <==> forall i | 0 <= i < |tags| :: tags[i].xid == 0 || tags[i].xid < xmin
    ensures Blocked(chain, xmin) <==>
            if chain[0].lists == [] then |chain| == 1 else chain[0].lists[0].xid != 0 && chain[0].lists[0].xid >= xmin
  {
  }

  lemma {:induction false} NothingTaken(xmin: int)
    ensures TagNos([]) == [] && AllRipe([], xmin)
  {
  }

  // ---- sorting, and pages from the end of the file

  predicate Sorted(s: seq<nat>) {
    forall i, j | 0 <= i < j < |s| :: s[i] <= s[j]
  }

  lemma {:induction false} InsertedSorted(s: seq<nat>, k: nat, x: nat)
    requires Sorted(s) && k <= |s| && (k > 0 ==> s[k - 1] <= x) && (k < |s| ==> x <= s[k])
    ensures Sorted(s[..k] + [x] + s[k..])
  {
    var r := s[..k] + [x] + s[k..];
    assert forall i | 0 <= i < |r| :: r[i] == if i < k then s[i] else if i == k then x else s[i - 1];
  }

  lemma {:induction false} NoneSorted()
    ensures Sorted([])
  {
  }

  lemma {:induction false} InsertedBag(s: seq<nat>, k: nat, x: nat)
    requires k <= |s|
    ensures multiset(s[..k] + [x] + s[k..]) == multiset(s) + multiset{x}
  {
    assert s == s[..k] + s[k..];
  }

  /** The pages in ascending order, as qsort leaves them. */
  method SortPages(pages: seq<nat>) returns (r: seq<nat>)
    ensures Sorted(r) && multiset(r) == multiset(pages) && |r| == |pages|
  {
    hide Sorted;
    r := [];
    NoneSorted();
    for i := 0 to |pages|
      invariant Sorted(r) && multiset(r) == multiset(pages[..i]) && |r| == i
    {
      var k := 0;
      while k < |r| && r[k] < pages[i]
        invariant k <= |r| && (k > 0 ==> r[k - 1] <= pages[i])
      {
        k := k + 1;
      }
      InsertedSorted(r, k, pages[i]);
      InsertedBag(r, k, pages[i]);
      r := r[..k] + [pages[i]] + r[k..];
      assert pages[..i + 1] == pages[..i] + [pages[i]];
    }
    assert pages[..|pages|] == pages;
  }

  function Range(a: nat, b: nat): (r: seq<nat>)
    requires a <= b
    ensures |r| == b - a && forall i | 0 <= i < |r| :: r[i] == a + i
  {
    seq(b - a, i requires 0 <= i => a + i)
  }

  lemma {:induction false} RangeBag(a: nat, b: nat)
    requires a <= b
    ensures forall p :: multiset(Range(a, b))[p] == if a <= p < b then 1 else 0
    decreases b - a
  {
    if a < b {
      RangeBag(a + 1, b);
      assert Range(a, b) == [a] + Range(a + 1, b);
    }
  }

  // ---- every page in one place

  /** The gc pages themselves and the pages listed on them. */
  ghost function Held(chain: seq<Page>): multiset<nat>
    requires ChainOk(chain)
  {
    multiset(Nos(chain)) + multiset(TagNos(ChainTags(chain)))
  }

  /** Each once, and all before the end of the used part of the file. */
  ghost predicate Separate(m: multiset<nat>, end: nat) {
    forall p :: m[p] <= 1 && (p in m ==> p < end)
  }

  /** No page is listed under an older transaction than the one that freed it. */
  ghost predicate Recorded(tags: seq<Tag>, freed: map<nat, nat>) {
    forall i | 0 <= i < |tags| :: tags[i].no in freed && freed[tags[i].no] <= tags[i].xid
  }

  lemma {:induction false} SplitHeld(from: seq<Page>, chain: seq<Page>, recycled: seq<nat>, taken: seq<Tag>)
    requires ChainOk(from) && ChainOk(chain) && Nos(from) == recycled + Nos(chain) && ChainTags(from) == taken + ChainTags(chain)
    ensures Held(from) == multiset(recycled) + multiset(TagNos(taken)) + Held(chain)
  {
    TagNosAppend(taken, ChainTags(chain));
  }

  lemma {:induction false} HandedOut(from: multiset<nat>, chain: multiset<nat>, out: multiset<nat>, end: nat, end': nat)
    requires Separate(from, end) && end <= end' && from + multiset(Range(end, end')) == chain + out
    ensures Separate(chain + out, end') && Separate(chain, end')
  {
    RangeBag(end, end');
    forall p ensures chain[p] <= (chain + out)[p] <= 1 && (p in chain + out ==> p < end') {
      assert (from + multiset(Range(end, end')))[p] == (chain + out)[p];
    }
  }

  /** What ed_alloc hands out, from where and in which order: gc pages that ran empty, then listed pages that
      no reader may still need, then pages from the end of the file once the lists give no more. */
  ghost predicate Handed(from: seq<Page>, end: nat, chain: seq<Page>, end': nat, npg: nat, xmin: int,
                         out: seq<nat>, recycled: seq<nat>, taken: seq<Tag>) {
    && ChainOk(from) && ChainOk(chain) && end <= end' && |out| == npg == |recycled| + |taken| + (end' - end)
    && Nos(from) == recycled + Nos(chain) && ChainTags(from) == taken + ChainTags(chain)
    && out[..|recycled|] == recycled
    && Sorted(out[|recycled|..|recycled| + |taken|]) && multiset(out[|recycled|..|recycled| + |taken|]) == multiset(TagNos(taken))
    && out[|recycled| + |taken|..] == Range(end, end')
    && AllRipe(taken, xmin) && (end < end' ==> Blocked(chain, xmin))
  }

  /** Nothing is lost and nothing is in two places. */
  lemma {:induction false} HandedApart(from: seq<Page>, end: nat, chain: seq<Page>, end': nat, npg: nat, xmin: int,
                                       out: seq<nat>, recycled: seq<nat>, taken: seq<Tag>)
    requires Handed(from, end, chain, end', npg, xmin, out, recycled, taken) && Separate(Held(from), end)
    ensures Held(chain) + multiset(out) == Held(from) + multiset(Range(end, end'))
    ensures Separate(Held(chain) + multiset(out), end') && Separate(Held(chain), end')
  {
    hide Separate;
    hide ChainOk;
    hide AllRipe;
    hide Sorted;
    hide ChainTags;
    hide Held;
    SplitHeld(from, chain, recycled, taken);
    var m := |recycled| + |taken|;
    assert out == out[..|recycled|] + out[|recycled|..m] + out[m..];
    HandedOut(Held(from), Held(chain), multiset(out), end, end');
  }

  /** The gate: a page freed under a transaction is reused only once every reader is past it. */
  lemma {:induction false} HandedGate(from: seq<Page>, end: nat, chain: seq<Page>, end': nat, npg: nat, xmin: int,
                                      out: seq<nat>, recycled: seq<nat>, taken: seq<Tag>, freed: map<nat, nat>)
    requires Handed(from, end, chain, end', npg, xmin, out, recycled, taken) && Recorded(ChainTags(from), freed)
    ensures Recorded(ChainTags(chain), freed)
    ensures forall i | 0 <= i < |taken| :: taken[i].no in freed && Ripe(freed[taken[i].no], xmin)
  {
    hide PageOk;
    hide ChainTags;
    hide Sorted;
    var a, b := taken, ChainTags(chain);
    assert forall i | 0 <= i < |a| :: (a + b)[i] == a[i];
    assert forall i | 0 <= i < |b| :: (a + b)[|a| + i] == b[i];
  }

  /** The file grows only once no list is left that may be used. */
  lemma {:induction false} HandedFirst(from: seq<Page>, end: nat, chain: seq<Page>, end': nat, npg: nat, xmin: int,
                                       out: seq<nat>, recycled: seq<nat>, taken: seq<Tag>)
    requires Handed(from, end, chain, end', npg, xmin, out, recycled, taken)
    ensures forall i | 0 <= i < |taken| :: taken[i].xid == 0 || taken[i].xid < xmin
    ensures end < end' ==>
              if chain[0].lists == [] then |chain| == 1 else chain[0].lists[0].xid != 0 && chain[0].lists[0].xid >= xmin
  {
    RipeIs(taken, chain, xmin);
  }

  lemma {:induction false} HandedBy(from: seq<Page>, end: nat, chain: seq<Page>, end': nat, npg: nat, xmin: int,
                                    recycled: seq<nat>, sorted: seq<nat>, taken: seq<Tag>)
    requires ChainOk(from) && ChainOk(chain) && end <= end' && npg == |recycled| + |taken| + (end' - end)
    requires Nos(from) == recycled + Nos(chain) && ChainTags(from) == taken + ChainTags(chain)
    requires Sorted(sorted) && multiset(sorted) == multiset(TagNos(taken)) && |sorted| == |taken|
    requires AllRipe(taken, xmin) && (end < end' ==> Blocked(chain, xmin))
    ensures Handed(from, end, chain, end', npg, xmin, recycled + sorted + Range(end, end'), recycled, taken)
  {
    hide ChainOk;
    hide ChainTags;
    hide Sorted;
    hide AllRipe;
    var out := recycled + sorted + Range(end, end');
    assert out[|recycled|..|recycled| + |taken|] == sorted;
    assert out[|recycled| + |taken|..] == Range(end, end');
  }

  // ---- storing freed pages

  /** ED_COUNT_SIZE for gc pages: fresh pages needed for `n` more entries. */
  function Fresh(n: int): int {
    if n <= 0 then 0 else (n + (LIST_MAX - 1)) / LIST_MAX
  }

  lemma {:induction false} FreshNat(n: int)
    ensures Fresh(n) >= 0
  {
  }

  lemma {:induction false} FreshIs(n: int)
    ensures Fresh(n) == (if n <= 0 then 0 else (n + 1014) / 1015) && (Fresh(n) == 1 <==> 0 < n <= 1015)
  {
  }

  lemma {:induction false} FreshStep(n: int)
    requires n > 0
    ensures Fresh(n) == 1 + Fresh(n - LIST_MAX) && Fresh(n) > 0
  {
  }

  /** gc_list_init. */
  function NewPage(no: nat, xid: nat): Page {
    Page(no, 0, 0, [List(xid, [])], Header(0, 0))
  }

  lemma {:induction false} NewPageOk(no: nat, xid: nat)
    ensures var g := NewPage(no, xid);
            PageOk(g) && PageTags(g) == [] && Remain(g) / 4 == LIST_MAX && g.lists != [] && Last(g).xid == xid
            && Remain(g) == 4 * LIST_MAX && g.no == no
  {
    var g := NewPage(no, xid);
    assert g.lists[..0] == [] && g.lists[1..] == [];
    assert SizeOf(g.lists) == ListSize(0) + SizeOf(g.lists[1..]);
    AlignedHeader();
  }

  lemma {:induction false} LastTagsKept(chain: seq<Page>, g: Page, more: seq<Tag>)
    requires ChainOk(chain) && PageOk(g) && g.no == chain[|chain| - 1].no
    requires (|chain| > 1 ==> g.lists != []) && PageTags(g) == PageTags(chain[|chain| - 1]) + more
    ensures var r := chain[..|chain| - 1] + [g]; ChainOk(r) && ChainTags(r) == ChainTags(chain) + more && Nos(r) == Nos(chain)
  {
    hide PageOk;
    hide PageTags;
    var n := |chain| - 1;
    assert chain == chain[..n] + [chain[n]];
    ChainTagsAppend(chain[..n], [chain[n]]);
    ChainTagsAppend(chain[..n], [g]);
    assert ChainTags([g]) == PageTags(g) && ChainTags([chain[n]]) == PageTags(chain[n]) by { OneTags(g); OneTags(chain[n]); }
  }

  lemma {:induction false} OneTags(g: Page)
    requires PageOk(g)
    ensures ChainTags([g]) == PageTags(g)
  {
    hide PageOk;
    hide PageTags;
    assert [g][1..] == [];
  }

  lemma {:induction false} NewPageLast(chain: seq<Page>, g: Page)
    requires ChainOk(chain) && PageOk(g) && g.lists != [] && PageTags(g) == []
    ensures var r := chain + [g]; ChainOk(r) && ChainTags(r) == ChainTags(chain) && Nos(r) == Nos(chain) + [g.no]
  {
    hide PageOk;
    hide PageTags;
    hide ChainTags;
    ChainTagsAppend(chain, [g]);
    OneTags(g);
  }

  /** All tagged `xid` or later. */
  ghost predicate Since(tags: seq<Tag>, xid: nat) {
    forall i | 0 <= i < |tags| :: tags[i].xid >= xid
  }

  /** All tagged `xid`, but for some that joined a list under `last`. */
  ghost predicate Filed(tags: seq<Tag>, xid: nat, last: nat) {
    forall i | 0 <= i < |tags| :: tags[i].xid == xid || tags[i].xid == last
  }

  /** The transaction of the last list if pages freed by `xid` join it, else `xid`. */
  function Joined(g: Page, xid: nat): (last: nat)
    ensures last >= xid
  {
    if g.lists != [] && xid <= g.lists[|g.lists| - 1].xid then g.lists[|g.lists| - 1].xid else xid
  }

  lemma {:induction false} FiledSince(tags: seq<Tag>, xid: nat, last: nat)
    requires Filed(tags, xid, last) && last >= xid
    ensures Since(tags, xid)
  {
  }

  lemma {:induction false} FiledMore(tags: seq<Tag>, xid: nat, last: nat, x: nat, a: seq<nat>, pages: seq<nat>)
    requires Filed(tags, xid, last) && (x == xid || x == last) && TagNos(tags) == a
    ensures Filed(tags + Tags(x, pages), xid, last) && TagNos(tags + Tags(x, pages)) == a + pages
  {
  }

  lemma {:induction false} FiledLess(tags: seq<Tag>, xid: nat, a: nat, b: nat)
    requires Filed(tags, xid, a) && (a == b || a == xid)
    ensures Filed(tags, xid, b)
  {
  }

  lemma {:induction false} NextJoined(g: Page, xid: nat)
    requires Next(g, xid).1
    ensures Last(Next(g, xid).0).xid == Joined(g, xid)
  {
  }

  /** The first `n` of `pg` behind what the last page of the chain holds. */
  method FillLast(from: seq<Page>, xid: nat, pg: seq<nat>) returns (chain: seq<Page>, n: nat)
    requires ChainOk(from) && from[|from| - 1].lists != [] && Remain(from[|from| - 1]) >= 0
    ensures var g := from[|from| - 1];
            && ChainOk(chain) && n <= |pg| && n == (if Remain(g) / 4 > |pg| then |pg| else Remain(g) / 4)
            && Nos(chain) == Nos(from) && ChainTags(chain) == ChainTags(from) + Tags(Last(g).xid, pg[..n])
            && |chain| == |from| && chain[|chain| - 1].lists != [] && Last(chain[|chain| - 1]).xid == Last(g).xid
            && (n < |pg| ==> Remain(chain[|chain| - 1]) < 4)
  {
    hide PageOk;
    hide PageTags;
    hide ChainTags;
    hide Remain;
    hide Last;
    hide Tags;
    hide Fill;
    var g := from[|from| - 1];
    n := Remain(g) / 4;
    if n > |pg| {
      n := |pg|;
    }
    var junk: Header := *;
    FillOk(g, pg[..n], junk);
    LastTagsKept(from, Fill(g, pg[..n], junk), Tags(Last(g).xid, pg[..n]));
    chain := from[..|from| - 1] + [Fill(g, pg[..n], junk)];
  }

  /** The rounds of the loop in ed_free_pgno that open a fresh page each. */
  method StoreFresh(from: seq<Page>, xid: nat, pg: seq<nat>, spare: seq<nat>)
    returns (ok: bool, chain: seq<Page>, used: nat, ghost tags: seq<Tag>)
    requires ChainOk(from)
    ensures ChainOk(chain) && used <= |spare| && Nos(chain) == Nos(from) + spare[..used]
    ensures ChainTags(chain) == ChainTags(from) + tags && Filed(tags, xid, xid) && TagNos(tags) <= pg
    ensures ok ==> TagNos(tags) == pg
    ensures (ok <==> Fresh(|pg|) <= |spare|) && (ok ==> used == Fresh(|pg|))
  {
    hide PageOk;
    hide PageTags;
    hide ChainTags;
    hide Remain;
    hide Last;
    hide TagNos;
    hide Filed;
    hide Fresh;
    hide NewPage;
    hide Tags;
    chain, used, tags := from, 0, [];
    NothingStored(xid, xid);
    var done := 0;
    while done < |pg|
      invariant ChainOk(chain) && used <= |spare| && Nos(chain) == Nos(from) + spare[..used] && done <= |pg|
      invariant ChainTags(chain) == ChainTags(from) + tags && Filed(tags, xid, xid) && TagNos(tags) == pg[..done]
      invariant used + Fresh(|pg| - done) == Fresh(|pg|)
    {
      FreshStep(|pg| - done);
      if used == |spare| {
        return false, chain, used, tags;
      }
      NewPageOk(spare[used], xid);
      var g := NewPage(spare[used], xid);
      NewPageLast(chain, g);
      assert spare[..used + 1] == spare[..used] + [spare[used]];
      chain, used := chain + [g], used + 1;
      var n;
      chain, n := FillLast(chain, xid, pg[done..]);
      FiledMore(tags, xid, xid, xid, pg[..done], pg[done..][..n]);
      tags := tags + Tags(xid, pg[done..][..n]);
      assert pg[..done + n] == pg[..done] + pg[done..][..n];
      FreshRest(|pg| - done, n);
      done := done + n;
    }
    assert pg[..done] == pg;
    ok := true;
  }

  /** The loop of ed_free_pgno: appends `pg` in order, opening the pages of `spare` one after the other when
      the last one is full; fails where the code trips over having too few of them. */
  method Store(from: seq<Page>, xid: nat, pg: seq<nat>, spare: seq<nat>)
    returns (ok: bool, chain: seq<Page>, used: nat, ghost tags: seq<Tag>)
    requires ChainOk(from) && Remain(from[|from| - 1]) >= 0
    ensures ChainOk(chain) && used <= |spare| && Nos(chain) == Nos(from) + spare[..used]
    ensures ChainTags(chain) == ChainTags(from) + tags && Filed(tags, xid, Joined(from[|from| - 1], xid)) && TagNos(tags) <= pg
    ensures ok ==> TagNos(tags) == pg
    ensures var need := Fresh(|pg| - Capacity(from[|from| - 1], xid));
            (ok <==> need <= |spare|) && (ok ==> used == need)
  {
    hide PageOk;
    hide PageTags;
    hide ChainTags;
    hide Remain;
    hide Last;
    hide TagNos;
    hide Filed;
    hide Fresh;
    hide Next;
    hide Tags;
    var g := from[|from| - 1];
    NextOk(g, xid);
    ghost var last := Joined(g, xid);
    NothingStored(xid, last);
    var next := Next(g, xid);
    if !next.1 {
      ok, chain, used, tags := StoreFresh(from, xid, pg, spare);
      FiledBoth([], tags, xid, last);
      assert [] + tags == tags;
      return;
    }
    NextKept(from, xid);
    NextJoined(g, xid);
    var done;
    chain, done := FillLast(from[..|from| - 1] + [next.0], xid, pg);
    ghost var first := Tags(Last(next.0).xid, pg[..done]);
    FiledMore([], xid, last, last, [], pg[..done]);
    assert [] + first == first;
    LeftOver(|pg|, Capacity(g, xid), done);
    ok, chain, used, tags := StoreFresh(chain, xid, pg[done..], spare);
    FiledBoth(first, tags, xid, last);
    tags := first + tags;
    assert pg == pg[..done] + pg[done..];
  }

  lemma {:induction false} FiledBoth(a: seq<Tag>, b: seq<Tag>, xid: nat, last: nat)
    requires Filed(a, xid, last) && Filed(b, xid, xid)
    ensures Filed(a + b, xid, last) && TagNos(a + b) == TagNos(a) + TagNos(b)
  {
  }

  lemma {:induction false} NothingStored(xid: nat, last: nat)
    ensures Filed([], xid, last) && TagNos([]) == [] && Fresh(0) == 0
  {
  }

  lemma {:induction false} NextKept(chain: seq<Page>, xid: nat)
    requires ChainOk(chain) && Next(chain[|chain| - 1], xid).1
    ensures var g := Next(chain[|chain| - 1], xid).0;
            var r := chain[..|chain| - 1] + [g];
            ChainOk(r) && ChainTags(r) == ChainTags(chain) && Nos(r) == Nos(chain)
  {
    hide PageOk;
    hide PageTags;
    hide ChainTags;
    hide Next;
    var g := Next(chain[|chain| - 1], xid).0;
    NextOk(chain[|chain| - 1], xid);
    LastTagsKept(chain, g, []);
  }

  lemma {:induction false} LeftOver(n: nat, cap: int, done: nat)
    requires done == if cap > n then n else cap
    ensures Fresh(n - done) == Fresh(n - cap)
  {
  }

  lemma {:induction false} FreshRest(r: int, n: int)
    requires r > 0 && n == if LIST_MAX > r then r else LIST_MAX
    ensures 1 + Fresh(r - n) == Fresh(r)
  {
  }

  datatype FreeRc = Freed | Refused | Aborted

  /** Fresh gc pages that ed_free_pgno asks for. */
  function Needed(g: Page, n: nat, xid: nat): int {
    Fresh(n - Promise(g, xid))
  }

  /** The lists moved to the start of the page. The bytes behind them move along as far as the page reaches;
      otherwise those are found that stood there before, `under`. */
  function Moved(g: Page, under: Header): Page {
    g.(head := 0, junk := if g.head + SizeOf(g.lists) + HEADER <= DATA then g.junk else under)
  }

  /** The last gc page as ed_free_pgno goes on with it: moved if one fresh page is needed and half of it is unused. */
  function Seen(g: Page, n: nat, xid: nat, under: Header): Page {
    if Remain(g) >= 0 && Needed(g, n, xid) == 1 && g.head >= DATA / 2 then Moved(g, under) else g
  }

  /** In numbers: one fresh page for each 1015 pages that do not fit, and the page is moved where at most one is needed
      and its lists begin in its second half. */
  lemma {:induction false} SeenIs(g: Page, n: nat, xid: nat, under: Header)
    ensures Needed(g, n, xid) == if n <= Promise(g, xid) then 0 else (n - Promise(g, xid) + 1014) / 1015
    ensures var h := Seen(g, n, xid, under);
            if Remain(g) >= 0 && 0 < n - Promise(g, xid) <= 1015 && g.head >= 2036 then
              h.head == 0 && h.lists == g.lists && h.nskip == g.nskip && h.no == g.no
            else h == g
  {
    hide Remain;
    hide Promise;
    FreshIs(n - Promise(g, xid));
  }

  lemma {:induction false} MovedOk(g: Page, under: Header)
    requires PageOk(g)
    ensures PageOk(Moved(g, under)) && PageTags(Moved(g, under)) == PageTags(g)
  {
  }

  lemma {:induction false} MovedRemain(g: Page, under: Header)
    requires Remain(g) >= 0
    ensures Remain(Moved(g, under)) == Remain(g) + g.head
  {
  }

  // ---- when a free completes

  /** `u` is `g` with lists used up from the front. */
  ghost predicate Trimmed(g: Page, u: Page) {
    && u.no == g.no && u.junk == g.junk && u.head + SizeOf(u.lists) == g.head + SizeOf(g.lists)
    && |u.lists| <= |g.lists| && u.lists == g.lists[|g.lists| - |u.lists|..]
    && (u.lists == [] ==> u.nskip == 0 || u == g)
  }

  /** A page whose lists are used up. */
  function Emptied(g: Page): Page {
    g.(head := g.head + SizeOf(g.lists), nskip := 0, lists := [])
  }

  lemma {:induction false} DropTrimmed(g: Page)
    requires g.lists != []
    ensures Trimmed(g, Dropped(g))
  {
  }

  lemma {:induction false} TrimTrans(g: Page, u: Page, v: Page)
    requires Trimmed(g, u) && Trimmed(u, v)
    ensures Trimmed(g, v)
  {
  }

  /** An allocation only uses up lists of the last page, and keeps the page. */
  lemma {:induction false} LeftTrimmed(chain: seq<Page>, npg: nat, xmin: int)
    requires chain != []
    ensures Trimmed(chain[|chain| - 1], Tail(Left(chain, npg, xmin)))
    decreases |chain|, |chain[0].lists|, 1
  {
    hide Trimmed;
    SameTrimmed(chain[|chain| - 1]);
    if npg > 0 && chain[0].lists != [] {
      LeftFromTrimmed(chain, npg, xmin);
    } else if npg > 0 && |chain| > 1 {
      LeftFromTrimmed(chain[1..], npg - 1, xmin);
    }
  }

  lemma {:induction false} SameTrimmed(g: Page)
    ensures Trimmed(g, g) && (g.lists != [] ==> forall n: nat :: Trimmed(g, g.(nskip := n)))
  {
  }

  lemma {:induction false} LeftFromTrimmed(chain: seq<Page>, want: nat, xmin: int)
    requires chain != []
    ensures Trimmed(chain[|chain| - 1], Tail(LeftFrom(chain, want, xmin)))
    decreases |chain|, |chain[0].lists|, 0
  {
    hide Trimmed;
    hide Left;
    var g := chain[0];
    SameTrimmed(chain[|chain| - 1]);
    if g.lists != [] && Ripe(g.lists[0].xid, xmin) && want >= |g.lists[0].pages| - g.nskip {
      var c := [Dropped(g)] + chain[1..];
      LeftTrimmed(c, want - (|g.lists[0].pages| - g.nskip), xmin);
      if |chain| == 1 {
        DropTrimmed(g);
        TrimTrans(g, Dropped(g), Tail(LeftFrom(chain, want, xmin)));
      } else {
        assert c[|c| - 1] == chain[|chain| - 1];
      }
    }
  }

  function Tail(chain: seq<Page>): Page
    requires chain != []
  {
    chain[|chain| - 1]
  }

  /** Lists used up from the front change nothing at the end of the page while one is left. */
  lemma {:induction false} TrimmedRoom(g: Page, u: Page, xid: nat)
    requires Trimmed(g, u) && PageOk(g) && PageOk(u)
    ensures u.lists != [] ==> Remain(u) == Remain(g) && Last(u) == Last(g) && Promise(u, xid) == Promise(g, xid)
    ensures u.lists == [] ==> u == Emptied(g)
  {
    if u.lists != [] {
      RemainLast(g);
      RemainLast(u);
    }
  }

  /** What a free of `n` pages finds on the last page once it has its fresh pages. */
  function Used(chain: seq<Page>, n: nat, xid: nat, xmin: int, under: Header): Page
    requires chain != []
  {
    var g := Seen(Tail(chain), n, xid, under);
    FreshNat(n - Promise(g, xid));
    Tail(Left(chain[..|chain| - 1] + [g], Needed(g, n, xid), xmin))
  }

  /** A free of `n` pages completes: a list is left on the last page, or the bytes behind its lists promised what
      the page without lists takes. */
  predicate Completes(chain: seq<Page>, n: nat, xid: nat, xmin: int, under: Header)
    requires chain != []
  {
    var u := Used(chain, n, xid, xmin, under);
    u.lists != [] || (Remain(u) >= 0 && Fresh(n - Capacity(u, xid)) == Needed(Seen(Tail(chain), n, xid, under), n, xid))
  }

  lemma {:induction false} HandedTags(from: seq<Page>, end: nat, chain: seq<Page>, end': nat, npg: nat, xmin: int,
                                      out: seq<nat>, recycled: seq<nat>, taken: seq<Tag>)
    requires Handed(from, end, chain, end', npg, xmin, out, recycled, taken)
    ensures ChainTags(from) == taken + ChainTags(chain)
  {
  }

  lemma {:induction false} MoreApart(a: multiset<nat>, b: multiset<nat>, pg: multiset<nat>, end: nat, end': nat)
    requires Separate(a + pg, end) && end <= end' && b == a + multiset(Range(end, end'))
    ensures Separate(b + pg, end')
  {
    RangeBag(end, end');
    forall p ensures (b + pg)[p] <= 1 && (p in b + pg ==> p < end') {
      assert (a + pg)[p] <= 1 && (p in a + pg ==> p < end);
    }
  }

  lemma {:induction false} SeparateLeak(held: multiset<nat>, busy: multiset<nat>, spare: multiset<nat>, end: nat)
    requires Separate(held + (busy + spare), end)
    ensures Separate(held + busy, end)
  {
    forall p ensures (held + busy)[p] <= 1 && (p in held + busy ==> p < end) {
      assert (held + (busy + spare))[p] <= 1 && (p in held + (busy + spare) ==> p < end);
    }
  }

  lemma {:induction false} BusySplit(held: multiset<nat>, busy: multiset<nat>, pg: multiset<nat>, end: nat)
    requires Separate(held + busy, end) && pg <= busy
    ensures Separate(held + pg + (busy - pg), end)
  {
    assert held + pg + (busy - pg) == held + busy;
  }

  lemma {:induction false} PrefixBag(a: seq<nat>, b: seq<nat>)
    requires a <= b
    ensures multiset(a) <= multiset(b)
  {
    assert b == a + b[|a|..];
  }

  /** Whatever part was stored, no page is in two places; once all is stored, nothing is lost. */
  lemma {:induction false} StoredApart(mid: seq<Page>, chain: seq<Page>, spare: seq<nat>, n: nat, tags: seq<Tag>, pg: seq<nat>,
                                       other: multiset<nat>, end: nat)
    requires ChainOk(mid) && ChainOk(chain) && n <= |spare| && Nos(chain) == Nos(mid) + spare[..n]
    requires ChainTags(chain) == ChainTags(mid) + tags && TagNos(tags) <= pg
    requires Separate(Held(mid) + multiset(spare) + multiset(pg) + other, end)
    ensures Separate(Held(chain) + other, end)
    ensures n == |spare| && TagNos(tags) == pg ==> Held(chain) == Held(mid) + multiset(spare) + multiset(pg)
  {
    hide PageOk;
    hide ChainTags;
    hide Nos;
    TagNosAppend(ChainTags(mid), tags);
    PrefixBag(spare[..n], spare);
    PrefixBag(TagNos(tags), pg);
    assert n == |spare| ==> spare[..n] == spare;
    BagsWithin(multiset(Nos(mid)), multiset(TagNos(ChainTags(mid))), multiset(spare[..n]), multiset(TagNos(tags)), multiset(spare), multiset(pg), other, end);
  }

  lemma {:induction false} BagsWithin(a: multiset<nat>, b: multiset<nat>, x: multiset<nat>, y: multiset<nat>, x': multiset<nat>, y': multiset<nat>,
                                      o: multiset<nat>, end: nat)
    requires x <= x' && y <= y' && Separate(a + b + x' + y' + o, end)
    ensures Separate((a + x) + (b + y) + o, end)
    ensures x == x' && y == y' ==> (a + x) + (b + y) == a + b + x' + y'
  {
    forall p ensures ((a + x) + (b + y) + o)[p] <= 1 && (p in (a + x) + (b + y) + o ==> p < end) {
      assert (a + b + x' + y' + o)[p] <= 1 && (p in a + b + x' + y' + o ==> p < end);
    }
  }

  ghost function Stamped(freed: map<nat, nat>, pg: seq<nat>, xid: nat): map<nat, nat> {
    freed + map p | p in pg :: xid
  }

  lemma {:induction false} StoredRecord(mid: seq<Page>, chain: seq<Page>, tags: seq<Tag>, pg: seq<nat>, xid: nat, freed: map<nat, nat>,
                                        spare: seq<nat>, other: multiset<nat>, end: nat)
    requires ChainOk(mid) && ChainOk(chain) && ChainTags(chain) == ChainTags(mid) + tags && TagNos(tags) <= pg && Since(tags, xid)
    requires Recorded(ChainTags(mid), freed) && Separate(Held(mid) + multiset(spare) + multiset(pg) + other, end)
    ensures Recorded(ChainTags(chain), Stamped(freed, pg, xid))
  {
    hide PageOk;
    hide ChainTags;
    hide Nos;
    var old_, all := ChainTags(mid), ChainTags(mid) + tags;
    forall i | 0 <= i < |all|
      ensures all[i].no in Stamped(freed, pg, xid) && Stamped(freed, pg, xid)[all[i].no] <= all[i].xid
    {
      if i < |old_| {
        assert all[i] == old_[i];
        assert old_[i].no == TagNos(old_)[i] && TagNos(old_)[i] in multiset(TagNos(old_));
        assert (Held(mid) + multiset(spare) + multiset(pg) + other)[old_[i].no] <= 1;
      } else {
        var t := tags[i - |old_|];
        assert t.no == TagNos(tags)[i - |old_|] == pg[i - |old_|];
      }
    }
  }

  lemma {:induction false} NoneFreed(m: multiset<nat>, tags: seq<Tag>, end: nat, xid: nat, last: nat)
    ensures m + multiset([]) + multiset(Range(end, end)) == m && [] + tags == tags + [] == tags && TagNos([]) == []
    ensures Since([], xid) && Filed([], xid, last)
  {
    assert Range(end, end) == [];
  }

  lemma {:induction false} HeldSum(had: multiset<nat>, mid: multiset<nat>, spare: multiset<nat>, pg: multiset<nat>, grown: multiset<nat>)
    requires mid + spare == had + grown
    ensures mid + spare + pg == had + pg + grown
  {
  }

  lemma {:induction false} StampedFacts(freed: map<nat, nat>, pg: seq<nat>, xid: nat)
    ensures var t := Stamped(freed, pg, xid);
            && (forall p | p in pg :: p in t && t[p] == xid)
            && (forall p | p in freed && p !in pg :: p in t && t[p] == freed[p])
  {
  }

  class Allocator {
    var chain: seq<Page>
    var tailStart: nat
    var tailCount: nat
    /** The transaction each listed page was freed under. */
    ghost var freed: map<nat, nat>
    /** The pages handed out and not yet freed. */
    ghost var inUse: multiset<nat>

    ghost predicate Valid()
      reads this
    {
      ChainOk(chain) && Separate(Held(chain) + inUse, tailStart) && Recorded(ChainTags(chain), freed)
    }

    /** map_end_pages: the next `n` pages of the file, which grows in steps when it must. */
    method TailPages(n: nat) returns (pages: seq<nat>)
      modifies `tailStart, `tailCount
      ensures tailStart == old(tailStart) + n && pages == Range(old(tailStart), tailStart)
      ensures tailStart + tailCount == old(tailStart + tailCount) + if n <= old(tailCount) then 0 else (n + 15) / 16 * 16
    {
      pages := Range(tailStart, tailStart + n);
      if n > tailCount {
        tailCount := tailCount + (n + (ALLOC_COUNT - 1)) / ALLOC_COUNT * ALLOC_COUNT;
      }
      tailStart, tailCount := tailStart + n, tailCount - n;
    }

    /** ed_alloc. */
    method Alloc(npg: nat, xmin: int) returns (ok: bool, out: seq<nat>, ghost recycled: seq<nat>, ghost taken: seq<Tag>)
      requires Valid()
      modifies `chain, `tailStart, `tailCount, `inUse
      ensures Valid() && ok == (npg <= 1024) && inUse == old(inUse) + multiset(out)
      ensures !ok || npg == 0 ==> chain == old(chain) && tailStart == old(tailStart) && tailCount == old(tailCount) && out == []
      ensures ok && npg > 0 ==> Handed(old(chain), old(tailStart), chain, tailStart, npg, xmin, out, recycled, taken)
      ensures ok ==> |out| == npg && tailStart >= old(tailStart) && old(ChainTags(chain)) == taken + ChainTags(chain)
      ensures ok ==> chain == Left(old(chain), npg, xmin)
      ensures ok ==> Held(chain) + multiset(out) == old(Held(chain)) + multiset(Range(old(tailStart), tailStart))
      ensures ok ==> forall p | p in out :: p !in old(inUse) && multiset(out)[p] == 1
      ensures ok ==> forall i | 0 <= i < |taken| :: taken[i].no in freed && Ripe(freed[taken[i].no], xmin)
    {
      hide PageOk;
      hide ChainTags;
      hide Separate;
      hide Recorded;
      hide Handed;
      hide AllRipe;
      hide Blocked;
      hide Sorted;
      hide Left;
      hide Ripe;
      hide Nos;
      recycled, taken, out := [], [], [];
      assert inUse + multiset(out) == inUse;
      if npg == 0 {
        NoneHanded(Held(chain), tailStart);
        LeftStep(chain, 0, xmin);
        assert [] + ChainTags(chain) == ChainTags(chain);
        return true, [], [], [];
      }
      if npg > 1024 {
        return false, [], [], [];
      }
      var rest, gcs, pages;
      rest, gcs, pages, taken := Take(chain, npg, xmin);
      recycled := gcs;
      var sorted := SortPages(pages);
      ghost var from, end := chain, tailStart;
      var ends := TailPages(npg - |gcs| - |pages|);
      chain, out, ok := rest, gcs + sorted + ends, true;
      HandedBy(from, end, rest, tailStart, npg, xmin, gcs, sorted, taken);
      SeparateLess(Held(from), inUse, end);
      HandedApart(from, end, rest, tailStart, npg, xmin, out, gcs, taken);
      MoreApart(Held(from), Held(rest) + multiset(out), inUse, end, tailStart);
      NotInUse(Held(rest), out, inUse, tailStart);
      inUse := inUse + multiset(out);
      HandedGate(from, end, rest, tailStart, npg, xmin, out, gcs, taken, freed);
      HandedTags(from, end, rest, tailStart, npg, xmin, out, gcs, taken);
    }

    /** Moves the lists of the last gc page to its start, where ed_free_pgno sees half of it unused. */
    method Compact(under: Header)
      requires Valid()
      modifies `chain
      ensures Valid() && Held(chain) == old(Held(chain)) && ChainTags(chain) == old(ChainTags(chain)) && Nos(chain) == old(Nos(chain))
      ensures chain == old(chain)[..|old(chain)| - 1] + [Moved(old(Tail(chain)), under)]
    {
      hide ChainTags;
      hide Separate;
      hide Recorded;
      hide Nos;
      hide PageTags;
      hide PageOk;
      var g := chain[|chain| - 1];
      MovedOk(g, under);
      LastTagsKept(chain, Moved(g, under), []);
      assert ChainTags(chain) + [] == ChainTags(chain);
      chain := chain[..|chain| - 1] + [Moved(g, under)];
    }

    /** The first loop of ed_free_pgno: how many fresh gc pages `n` more pages need. */
    method Room(xid: nat, n: nat, under: Header) returns (rc: FreeRc, need: nat)
      requires Valid()
      modifies `chain
      ensures Valid() && Held(chain) == old(Held(chain)) && ChainTags(chain) == old(ChainTags(chain))
      ensures var g := Seen(old(Tail(chain)), n, xid, under);
              && chain == old(chain)[..|old(chain)| - 1] + [g]
              && rc == (if Remain(g) >= 0 then Freed else Aborted) && (rc == Freed ==> need == Needed(g, n, xid))
    {
      hide ChainTags;
      hide Separate;
      hide Recorded;
      hide Nos;
      hide PageTags;
      hide PageOk;
      hide Remain;
      hide Promise;
      hide Fresh;
      var g := chain[|chain| - 1];
      if Remain(g) < 0 {
        return Aborted, 0;
      }
      FreshNat(n - Promise(g, xid));
      need := Needed(g, n, xid);
      if need == 1 && g.head >= DATA / 2 {
        Compact(under);
        MovedRemain(g, under);
        g := chain[|chain| - 1];
        FreshNat(n - Promise(g, xid));
        need := Needed(g, n, xid);
      }
      rc := Freed;
    }

    /** The second loop of ed_free_pgno, and the assertion after it. */
    method StoreAll(xid: nat, pg: seq<nat>, spare: seq<nat>) returns (ok: bool, ghost tags: seq<Tag>)
      requires ChainOk(chain) && Recorded(ChainTags(chain), freed) && Remain(chain[|chain| - 1]) >= 0
      requires Separate(Held(chain) + multiset(spare) + multiset(pg) + inUse, tailStart)
      modifies `chain, `freed
      ensures Valid() && freed == Stamped(old(freed), pg, xid)
      ensures ok <==> Fresh(|pg| - Capacity(old(chain[|chain| - 1]), xid)) == |spare|
      ensures ok ==> Held(chain) == old(Held(chain)) + multiset(spare) + multiset(pg)
      ensures ok ==> ChainTags(chain) == old(ChainTags(chain)) + tags && TagNos(tags) == pg && Since(tags, xid)
      ensures Filed(tags, xid, Joined(old(chain)[|old(chain)| - 1], xid))
    {
      hide ChainTags;
      hide Separate;
      hide Recorded;
      hide Nos;
      hide PageOk;
      hide Remain;
      hide TagNos;
      hide Since;
      hide Filed;
      hide Fresh;
      hide Held;
      hide Capacity;
      hide Stamped;
      ghost var mid := chain;
      var n;
      ok, chain, n, tags := Store(chain, xid, pg, spare);
      FiledSince(tags, xid, Joined(mid[|mid| - 1], xid));
      StoredApart(mid, chain, spare, n, tags, pg, inUse, tailStart);
      StoredRecord(mid, chain, tags, pg, xid, freed, spare, inUse, tailStart);
      freed := Stamped(freed, pg, xid);
      ok := ok && n == |spare|;
    }

    /** ed_free_pgno. It aborts on an assertion in three cases: the last gc page has no list and too little
        room for a header, the pages taken for new gc pages are too few, or they are too many. */
    method Free(xid: nat, pg: seq<nat>, xmin: int, under: Header)
      returns (rc: FreeRc, ghost taken: seq<Tag>, ghost rest: seq<Tag>, ghost tags: seq<Tag>)
      requires Valid() && multiset(pg) <= inUse
      modifies this
      // stopped or not, no page is in two places
      ensures Valid() && tailStart >= old(tailStart) && inUse <= old(inUse)
      ensures rc == Freed ==> inUse == old(inUse) - multiset(pg)
      // stored once each, in order, under a transaction not older than theirs, behind what was listed
      ensures rc == Freed ==> Held(chain) == old(Held(chain)) + multiset(pg) + multiset(Range(old(tailStart), tailStart))
      ensures rc == Freed ==> old(ChainTags(chain)) == taken + rest && ChainTags(chain) == rest + tags
      ensures rc == Freed ==> Filed(tags, xid, Joined(old(Tail(chain)), xid))
      ensures rc == Freed ==> TagNos(tags) == pg && Since(tags, xid) && forall p | p in pg :: p in freed && freed[p] == xid
      ensures forall p | p in old(freed) && p !in pg :: p in freed && freed[p] == old(freed)[p]
      // exactly when it is refused, completes or aborts
      ensures var g := Seen(old(Tail(chain)), |pg|, xid, under);
              rc == Refused <==> pg != [] && Remain(g) >= 0 && Needed(g, |pg|, xid) > 1024
      ensures rc == Freed <==> pg == [] || (rc != Refused && old(Completes(chain, |pg|, xid, xmin, under)))
    {
      hide Stamped;
      hide Range;
      hide ChainTags;
      hide Separate;
      hide Recorded;
      hide Nos;
      hide PageTags;
      hide PageOk;
      hide Remain;
      hide Promise;
      hide Next;
      hide TagNos;
      hide Since;
      hide Filed;
      hide Joined;
      hide Handed;
      hide Fresh;
      hide Ripe;
      hide Held;
      hide Capacity;
      hide Left;
      hide Seen;
      hide Completes;
      taken, rest, tags := [], ChainTags(chain), [];
      if |pg| < 1 {
        NoneFreed(Held(chain), ChainTags(chain), tailStart, xid, Joined(Tail(chain), xid));
        assert pg == [] && inUse - multiset(pg) == inUse;
        return Freed, taken, rest, tags;
      }
      CompletesBy(chain, |pg|, xid, xmin, under);
      ghost var start := chain;
      var need;
      rc, need := Room(xid, |pg|, under);
      if rc == Aborted {
        return;
      }
      ghost var had, end, busy := Held(chain), tailStart, inUse;
      var ok, spare;
      ghost var recycled;
      ok, spare, recycled, taken := Alloc(need, xmin);
      if !ok {
        return Refused, taken, rest, tags;
      }
      rest := ChainTags(chain);
      inUse := busy;
      SeparateLeak(Held(chain), busy, multiset(spare), tailStart);
      if Remain(chain[|chain| - 1]) < 0 {
        return Aborted, taken, rest, tags;
      }
      ghost var mid, was := chain, freed;
      MoreApart(had, Held(mid) + multiset(spare), busy, end, tailStart);
      BusySplit(Held(mid) + multiset(spare), busy, multiset(pg), tailStart);
      inUse := busy - multiset(pg);
      FiledStill(start, |pg|, need, xid, xmin, under);
      ok, tags := StoreAll(xid, pg, spare);
      FiledLess(tags, xid, Joined(Tail(mid), xid), Joined(Tail(start), xid));
      rc := if ok then Freed else Aborted;
      StampedFacts(was, pg, xid);
      if ok {
        HeldSum(had, Held(mid), multiset(spare), multiset(pg), multiset(Range(end, tailStart)));
      }
    }
  }

  /** The allocation in between keeps the last list, or leaves none. */
  lemma {:induction false} FiledStill(chain: seq<Page>, n: nat, need: nat, xid: nat, xmin: int, under: Header)
    requires chain != []
    ensures var seen := chain[..|chain| - 1] + [Seen(Tail(chain), n, xid, under)];
            var x := Joined(Tail(Left(seen, need, xmin)), xid);
            x == Joined(Tail(chain), xid) || x == xid
  {
    hide Left;
    var seen := chain[..|chain| - 1] + [Seen(Tail(chain), n, xid, under)];
    LeftTrimmed(seen, need, xmin);
    var g, u := Tail(seen), Tail(Left(seen, need, xmin));
    assert g.lists == Tail(chain).lists;
    assert u.lists != [] ==> u.lists[|u.lists| - 1] == g.lists[|g.lists| - 1];
  }

  lemma {:induction false} SeparateLess(a: multiset<nat>, b: multiset<nat>, end: nat)
    requires Separate(a + b, end)
    ensures Separate(a, end)
  {
    forall p ensures a[p] <= 1 && (p in a ==> p < end) {
      assert (a + b)[p] <= 1 && (p in a + b ==> p < end);
    }
  }

  lemma {:induction false} NotInUse(held: multiset<nat>, out: seq<nat>, inUse: multiset<nat>, end: nat)
    requires Separate(held + multiset(out) + inUse, end)
    ensures forall p | p in out :: p !in inUse && multiset(out)[p] == 1
    ensures Separate(held + (inUse + multiset(out)), end)
  {
    assert held + multiset(out) + inUse == held + (inUse + multiset(out));
    forall p | p in out ensures p !in inUse && multiset(out)[p] == 1 {
      assert p in multiset(out) && (held + multiset(out) + inUse)[p] <= 1;
    }
  }

  lemma {:induction false} NoneHanded(m: multiset<nat>, end: nat)
    ensures m + multiset([]) == m + multiset(Range(end, end))
  {
    assert Range(end, end) == [];
    assert m + multiset([]) == m;
  }

  /** With a list on the last gc page the promise is exact: the fresh pages are neither too few nor too many. */
  lemma {:induction false} FreeCompletes(g: Page, xid: nat, n: nat)
    requires PageOk(g) && g.lists != []
    ensures Remain(g) >= 0 && Fresh(n - Capacity(g, xid)) == Fresh(n - Promise(g, xid))
  {
    RemainLast(g);
    PromiseKept(g, xid);
  }

  lemma {:induction false} SeenOk(chain: seq<Page>, n: nat, xid: nat, under: Header)
    requires ChainOk(chain)
    ensures var g := Seen(Tail(chain), n, xid, under);
            ChainOk(chain[..|chain| - 1] + [g]) && (g.lists == [] <==> Tail(chain).lists == []) && (g.lists == [] ==> |chain| == 1)
    ensures Remain(Tail(chain)) < 0 ==> Tail(chain).lists == []
  {
    hide PageOk;
    hide Remain;
    hide Needed;
    var g := Tail(chain);
    if g.lists != [] {
      RemainLast(g);
    }
    MovedOk(g, under);
  }

  /** The allocation for the fresh pages only uses up lists of the last page, if it has any. */
  lemma {:induction false} UsedTrimmed(chain: seq<Page>, n: nat, xid: nat, xmin: int, under: Header)
    requires ChainOk(chain)
    ensures var g, u := Seen(Tail(chain), n, xid, under), Used(chain, n, xid, xmin, under);
            PageOk(g) && PageOk(u) && Trimmed(g, u) && (g.lists == [] ==> u == g)
  {
    hide PageOk;
    hide Needed;
    hide Seen;
    hide Left;
    hide Trimmed;
    var g := Seen(Tail(chain), n, xid, under);
    SeenOk(chain, n, xid, under);
    var c := chain[..|chain| - 1] + [g];
    NeededNat(g, n, xid);
    LeftTrimmed(c, Needed(g, n, xid), xmin);
    LeftOk(c, Needed(g, n, xid), xmin);
    assert c[|chain| - 1] == g;
    if g.lists == [] {
      NothingLeft(g, Needed(g, n, xid), xmin);
      assert c == [g];
    }
  }

  lemma {:induction false} ListLeft(g: Page, u: Page, n: nat, xid: nat)
    requires PageOk(g) && PageOk(u) && Trimmed(g, u) && u.lists != []
    ensures Remain(g) >= 0 && Remain(u) >= 0 && Fresh(n - Capacity(u, xid)) == Needed(g, n, xid)
  {
    hide PageOk;
    hide Remain;
    hide Capacity;
    hide Promise;
    hide Fresh;
    hide Trimmed;
    TrimmedRoom(g, u, xid);
    FreeCompletes(u, xid, n);
  }

  /** The condition in the terms of the two loops of ed_free_pgno. */
  lemma {:induction false} CompletesBy(chain: seq<Page>, n: nat, xid: nat, xmin: int, under: Header)
    requires ChainOk(chain)
    ensures var g, u := Seen(Tail(chain), n, xid, under), Used(chain, n, xid, xmin, under);
            && (Remain(g) < 0 ==> !Completes(chain, n, xid, xmin, under))
            && (Completes(chain, n, xid, xmin, under) <==> Remain(u) >= 0 && Fresh(n - Capacity(u, xid)) == Needed(g, n, xid))
  {
    hide PageOk;
    hide Remain;
    hide Capacity;
    hide Needed;
    hide Fresh;
    hide Used;
    hide Seen;
    hide Trimmed;
    var g, u := Seen(Tail(chain), n, xid, under), Used(chain, n, xid, xmin, under);
    UsedTrimmed(chain, n, xid, xmin, under);
    if u.lists != [] {
      ListLeft(g, u, n, xid);
    } else if g.lists != [] {
      RemainLast(g);
    }
  }

  lemma {:induction false} NothingLeft(g: Page, npg: nat, xmin: int)
    requires g.lists == []
    ensures Left([g], npg, xmin) == [g]
  {
  }

  /** An allocation takes no more than it is asked for. */
  lemma {:induction false} LeftOk(chain: seq<Page>, npg: nat, xmin: int)
    requires ChainOk(chain)
    ensures var r := Left(chain, npg, xmin); ChainOk(r) && |chain| + |ChainTags(chain)| <= |r| + |ChainTags(r)| + npg
    decreases |chain|, |chain[0].lists|, 1
  {
    hide PageOk;
    hide ChainTags;
    if npg > 0 && chain[0].lists != [] {
      LeftFromOk(chain, npg, xmin);
    } else if npg > 0 && |chain| > 1 {
      HeadGone(chain);
      LeftFromOk(chain[1..], npg - 1, xmin);
    }
  }

  lemma {:induction false} LeftFromOk(chain: seq<Page>, want: nat, xmin: int)
    requires ChainOk(chain)
    ensures var r := LeftFrom(chain, want, xmin); ChainOk(r) && |chain| + |ChainTags(chain)| <= |r| + |ChainTags(r)| + want
    decreases |chain|, |chain[0].lists|, 0
  {
    hide PageOk;
    hide PageTags;
    hide ChainTags;
    hide Left;
    hide Dropped;
    var g := chain[0];
    if g.lists != [] && Ripe(g.lists[0].xid, xmin) {
      SkipBound(g);
      var left := |g.lists[0].pages| - g.nskip;
      if want < left {
        SkipTags(g, want);
        HeadTags(chain, g.(nskip := g.nskip + want), Tags(g.lists[0].xid, g.lists[0].pages[g.nskip..g.nskip + want]));
      } else {
        DropTags(g);
        DropShorter(g);
        HeadTags(chain, Dropped(g), Tags(g.lists[0].xid, g.lists[0].pages[g.nskip..]));
        LeftOk([Dropped(g)] + chain[1..], want - left, xmin);
      }
    }
  }

  lemma {:induction false} SkipBound(g: Page)
    requires PageOk(g) && g.lists != []
    ensures g.nskip <= |g.lists[0].pages|
  {
  }

  lemma {:induction false} DropShorter(g: Page)
    requires g.lists != []
    ensures |Dropped(g).lists| == |g.lists| - 1
  {
  }

  /** If the lists hold more than the fresh pages need, the last page keeps a list and a free completes. */
  lemma {:induction false} ListedCompletes(chain: seq<Page>, n: nat, xid: nat, xmin: int, under: Header)
    requires ChainOk(chain)
    requires Needed(Seen(Tail(chain), n, xid, under), n, xid) < |chain| - 1 + |ChainTags(chain)|
    ensures Completes(chain, n, xid, xmin, under)
  {
    hide PageOk;
    hide PageTags;
    hide Left;
    hide Seen;
    hide Needed;
    hide ChainTags;
    var g := Seen(Tail(chain), n, xid, under);
    SeenOk(chain, n, xid, under);
    SeenTags(chain, n, xid, under);
    var c := chain[..|chain| - 1] + [g];
    assert Needed(g, n, xid) >= 0 by { NeededNat(g, n, xid); }
    LeftOk(c, Needed(g, n, xid), xmin);
    var r := Left(c, Needed(g, n, xid), xmin);
    if Tail(r).lists == [] {
      assert |r| == 1 && r[0] == Tail(r);
      OneTags(r[0]);
      assert [r[0]] == r;
      EmptyTags(r[0]);
    }
  }

  lemma {:induction false} NeededNat(g: Page, n: nat, xid: nat)
    ensures Needed(g, n, xid) >= 0
  {
  }

  lemma {:induction false} SeenTags(chain: seq<Page>, n: nat, xid: nat, under: Header)
    requires ChainOk(chain) && ChainOk(chain[..|chain| - 1] + [Seen(Tail(chain), n, xid, under)])
    ensures ChainTags(chain[..|chain| - 1] + [Seen(Tail(chain), n, xid, under)]) == ChainTags(chain)
  {
    hide PageOk;
    hide PageTags;
    hide ChainTags;
    hide Remain;
    hide Needed;
    var g := Tail(chain);
    MovedOk(g, under);
    LastTagsKept(chain, Seen(g, n, xid, under), []);
  }

  /** Without a list the chain is one page, which no allocation touches. */
  lemma {:induction false} EmptyCompletes(g: Page, n: nat, xid: nat, xmin: int, under: Header)
    requires PageOk(g) && g.lists == []
    ensures var s := Seen(g, n, xid, under);
            Completes([g], n, xid, xmin, under) <==> Remain(s) >= 0 && Fresh(n - Capacity(s, xid)) == Fresh(n - Promise(s, xid))
  {
    var s := Seen(g, n, xid, under);
    FreshNat(n - Promise(s, xid));
    NothingLeft(s, Needed(s, n, xid), xmin);
    assert [g][..0] + [s] == [s];
  }

  lemma {:induction false} OneUsedUp(pages: seq<nat>, xmin: int)
    requires |pages| > 0 && ListSize(|pages|) <= DATA
    ensures var g := Page(1, 0, 0, [List(0, pages)], Header(0, 0));
            PageOk(g) && Left([g], |pages|, xmin) == [Page(1, ListSize(|pages|), 0, [], Header(0, 0))]
  {
    var g := Page(1, 0, 0, [List(0, pages)], Header(0, 0));
    assert g.lists[1..] == [];
    assert [Dropped(g)] + [g][1..] == [Dropped(g)];
    LeftStep([g], |pages|, xmin);
    LeftFromStep([g], |pages|, xmin);
    LeftStep([Dropped(g)], 0, xmin);
  }

  lemma {:induction false} FreshOne()
    ensures Fresh(4) == 1 && Fresh(0) == 0 && ListSize(247) == 1000 && ListSize(1013) == 4064
  {
  }

  /** A list used up by one allocation: the page promises four pages less than it takes, and one fresh page too
      many is taken for the next free. */
  lemma {:induction false} FreeAborts(pages: seq<nat>, xmin: int, under: Header)
    requires |pages| == 247
    ensures var g, h := Page(1, 0, 0, [List(0, pages)], Header(0, 0)), Page(1, 1000, 0, [], Header(0, 0));
            PageOk(g) && Left([g], 247, xmin) == [h] && !Completes([h], 765, 1, xmin, under)
  {
    hide Left;
    hide Fresh;
    hide Completes;
    hide ListSize;
    var h := Page(1, 1000, 0, [], Header(0, 0));
    FreshOne();
    OneUsedUp(pages, xmin);
    NewTail(h, 1);
    EmptyCompletes(h, 765, 1, xmin, under);
  }

  /** A list used up to the end of the page: not even a header fits, and every further free aborts. */
  lemma {:induction false} FreeNever(pages: seq<nat>, n: nat, xid: nat, xmin: int, under: Header)
    requires |pages| == 1013
    ensures var g, h := Page(1, 0, 0, [List(0, pages)], Header(0, 0)), Page(1, 4064, 0, [], Header(0, 0));
            PageOk(g) && Left([g], 1013, xmin) == [h] && !Completes([h], n, xid, xmin, under)
  {
    hide Left;
    hide Fresh;
    hide Completes;
    hide ListSize;
    FreshOne();
    OneUsedUp(pages, xmin);
    EmptyCompletes(Page(1, 4064, 0, [], Header(0, 0)), n, xid, xmin, under);
  }
}
