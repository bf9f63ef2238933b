/** A gc page as the words of its data (EdPgGc and EdPgGcList of lib/pg.c): what the writes of gc_list_init,
    gc_list_next and ed_free_pgno do to them, one after the other, and which lists they mean in between. */
module GcWords {
  import opened Gc
  import opened Alloc

  const WORDS: nat := 1018

  /** A list's header: the transaction in two words, low first, and the number of pages. */
  function HeaderAt(w: seq<nat>, a: nat): Header
    requires a + 3 <= |w|
  {
    Header(w[a] + 0x1_0000_0000 * w[a + 1], w[a + 2])
  }

  predicate ListAt(w: seq<nat>, a: nat, l: List) {
    && a + 3 + |l.pages| <= |w| && HeaderAt(w, a) == Header(l.xid, |l.pages|)
    && w[a + 3..a + 3 + |l.pages|] == l.pages
  }

  /** The lists one after the other from word `a`. */
  predicate Laid(w: seq<nat>, a: nat, lists: seq<List>)
    decreases lists
  {
    lists == [] || (ListAt(w, a, lists[0]) && Laid(w, a + ListSize(|lists[0].pages|) / 4, lists[1..]))
  }

  /** The byte behind the last list. */
  function EndOf(g: Page): nat {
    g.head + SizeOf(g.lists)
  }

  /** The words mean the page. */
  predicate Means(w: seq<nat>, g: Page) {
    && |w| == WORDS && PageOk(g) && Laid(w, g.head / 4, g.lists)
    && (EndOf(g) / 4 + 3 <= WORDS ==> g.junk == HeaderAt(w, EndOf(g) / 4))
  }

  lemma {:induction false} ListWords(n: nat)
    ensures ListSize(n) % 8 == 0 && n + 3 <= ListSize(n) / 4 <= n + 4
  {
  }

  lemma {:induction false} EndWords(g: Page)
    requires PageOk(g)
    ensures EndOf(g) % 8 == 0 && EndOf(g) / 4 == g.head / 4 + SizeOf(g.lists) / 4 <= WORDS
  {
    hide SizeOf;
    SizeAligned(g.lists);
    Quarters(g.head, SizeOf(g.lists));
  }

  lemma {:induction false} Quarters(a: nat, b: nat)
    requires a % 8 == 0 && b % 8 == 0
    ensures (a + b) % 8 == 0 && (a + b) / 4 == a / 4 + b / 4
  {
  }

  /** `n` words of one page are those of another. */
  predicate Same(w: seq<nat>, a: nat, v: seq<nat>, b: nat, n: nat) {
    a + n <= |w| && b + n <= |v| && w[a..a + n] == v[b..b + n]
  }

  lemma {:induction false} SamePart(w: seq<nat>, a: nat, v: seq<nat>, b: nat, n: nat, i: nat, m: nat)
    requires Same(w, a, v, b, n) && i + m <= n
    ensures Same(w, a + i, v, b + i, m)
  {
    Slice(w, a, n, i, m);
    Slice(v, b, n, i, m);
  }

  lemma {:induction false} Slice(w: seq<nat>, a: nat, n: nat, i: nat, m: nat)
    requires a + n <= |w| && i + m <= n
    ensures w[a..a + n][i..i + m] == w[a + i..a + i + m]
  {
    var x, y := w[a..a + n][i..i + m], w[a + i..a + i + m];
    assert |x| == |y| && forall k | 0 <= k < m :: x[k] == y[k];
  }

  lemma {:induction false} SameHeader(w: seq<nat>, a: nat, v: seq<nat>, b: nat)
    requires Same(w, a, v, b, 3)
    ensures HeaderAt(w, a) == HeaderAt(v, b)
  {
    var x, y := w[a..a + 3], v[b..b + 3];
    assert w[a] == x[0] == y[0] == v[b] && w[a + 1] == x[1] == y[1] == v[b + 1] && w[a + 2] == x[2] == y[2] == v[b + 2];
  }

  lemma {:induction false} SameList(w: seq<nat>, a: nat, v: seq<nat>, b: nat, l: List)
    requires Same(w, a, v, b, 3 + |l.pages|) && ListAt(w, a, l)
    ensures ListAt(v, b, l)
  {
    hide HeaderAt;
    SamePart(w, a, v, b, 3 + |l.pages|, 0, 3);
    SamePart(w, a, v, b, 3 + |l.pages|, 3, |l.pages|);
    SameHeader(w, a, v, b);
  }

  /** Lists depend on their own words only, wherever they are. */
  lemma {:induction false} SameLaid(w: seq<nat>, a: nat, v: seq<nat>, b: nat, lists: seq<List>)
    requires Laid(w, a, lists) && Same(w, a, v, b, SizeOf(lists) / 4)
    ensures Laid(v, b, lists)
    decreases lists
  {
    hide ListAt;
    hide ListSize;
    hide Same;
    if lists != [] {
      var n := |lists[0].pages|;
      ListWords(n);
      SizeAligned(lists[1..]);
      var m := ListSize(n) / 4;
      assert SizeOf(lists) / 4 == m + SizeOf(lists[1..]) / 4;
      SamePart(w, a, v, b, SizeOf(lists) / 4, 0, 3 + n);
      SamePart(w, a, v, b, SizeOf(lists) / 4, m, SizeOf(lists[1..]) / 4);
      SameList(w, a, v, b, lists[0]);
      SameLaid(w, a + m, v, b + m, lists[1..]);
    }
  }

  lemma {:induction false} LaidAppend(w: seq<nat>, a: nat, xs: seq<List>, ys: seq<List>)
    ensures Laid(w, a, xs + ys) <==> Laid(w, a, xs) && Laid(w, a + SizeOf(xs) / 4, ys)
    decreases xs
  {
    hide ListAt;
    hide ListSize;
    if xs == [] {
      assert xs + ys == ys;
    } else {
      ListWords(|xs[0].pages|);
      SizeAligned(xs[1..]);
      assert (xs + ys)[1..] == xs[1..] + ys;
      LaidAppend(w, a + ListSize(|xs[0].pages|) / 4, xs[1..], ys);
    }
  }

  lemma {:induction false} LaidOne(w: seq<nat>, a: nat, l: List)
    ensures Laid(w, a, [l]) <==> ListAt(w, a, l)
  {
    hide ListAt;
    assert [l][1..] == [];
  }

  // ---- the writes

  /** memcpy of the data from word `a` on to the front. */
  function Compacted(w: seq<nat>, a: nat): seq<nat>
    requires a <= |w|
  {
    w[a..] + w[|w| - a..]
  }

  /** The two words of a transaction number. */
  function XidStored(w: seq<nat>, a: nat, xid: nat): seq<nat>
    requires a + 3 <= |w|
    ensures |XidStored(w, a, xid)| == |w|
  {
    w[a := xid % 0x1_0000_0000][a + 1 := xid / 0x1_0000_0000]
  }

  function CountStored(w: seq<nat>, a: nat, n: nat): seq<nat>
    requires a + 3 <= |w|
  {
    w[a + 2 := n]
  }

  /** Pages copied behind the `n` of the list at word `a`. */
  function PagesStored(w: seq<nat>, a: nat, n: nat, pages: seq<nat>): seq<nat>
    requires a + 3 + n + |pages| <= |w|
    ensures |PagesStored(w, a, n, pages)| == |w|
  {
    w[..a + 3 + n] + pages + w[a + 3 + n + |pages|..]
  }

  // ---- compaction

  lemma {:induction false} CompactedFront(w: seq<nat>, a: nat)
    requires |w| == WORDS && WORDS <= 2 * a && a <= WORDS
    ensures var v := Compacted(w, a);
            |v| == WORDS && Same(w, a, v, 0, WORDS - a) && Same(w, WORDS - a, v, WORDS - a, a) && Same(w, a, v, a, WORDS - a)
  {
    var v := Compacted(w, a);
    assert v[0..WORDS - a] == w[a..] == w[a..WORDS];
    assert v[WORDS - a..WORDS] == w[WORDS - a..WORDS];
    assert v[a..WORDS] == v[WORDS - a..WORDS][2 * a - WORDS..];
    assert w[a..WORDS] == w[WORDS - a..WORDS][2 * a - WORDS..];
  }

  /** Copying the lists to the front changes nothing while the state still leads to the old copy, */
  lemma {:induction false} CopiedMeans(w: seq<nat>, g: Page)
    requires Means(w, g) && 2 * g.head >= DATA
    ensures Means(Compacted(w, g.head / 4), g)
  {
    hide Laid;
    hide Same;
    hide HeaderAt;
    hide Compacted;
    var a, n := g.head / 4, SizeOf(g.lists) / 4;
    var v := Compacted(w, a);
    EndWords(g);
    CompactedFront(w, a);
    SamePart(w, a, v, a, WORDS - a, 0, n);
    SameLaid(w, a, v, a, g.lists);
    if a + n + 3 <= WORDS {
      SamePart(w, a, v, a, WORDS - a, n, 3);
      SameHeader(w, a + n, v, a + n);
    }
  }

  /** and once it leads to the front the page is the moved one. Behind its lists stand the bytes that stood behind
      them before, as far as they were copied. */
  lemma {:induction false} CompactedMeans(w: seq<nat>, g: Page, under: Header)
    requires Means(w, g) && 2 * g.head >= DATA
    requires SizeOf(g.lists) / 4 + 3 <= WORDS ==> under == HeaderAt(Compacted(w, g.head / 4), SizeOf(g.lists) / 4)
    ensures Means(Compacted(w, g.head / 4), Moved(g, under))
  {
    hide Laid;
    hide Same;
    hide HeaderAt;
    hide Compacted;
    hide SizeOf;
    var a, n := g.head / 4, SizeOf(g.lists) / 4;
    var v := Compacted(w, a);
    EndWords(g);
    MovedOk(g, under);
    CompactedFront(w, a);
    SamePart(w, a, v, 0, WORDS - a, 0, n);
    SameLaid(w, a, v, 0, g.lists);
    if a + n + 3 <= WORDS {
      SamePart(w, a, v, 0, WORDS - a, n, 3);
      SameHeader(w, a + n, v, n);
    }
  }

  /** What stood in the second half of the page still stands there. */
  lemma {:induction false} OldCopy(w: seq<nat>, a: nat, b: nat, l: List)
    requires |w| == WORDS && WORDS <= 2 * a && a <= WORDS && a <= b && ListAt(w, b, l)
    ensures ListAt(Compacted(w, a), b, l)
  {
    hide HeaderAt;
    hide Same;
    hide Compacted;
    CompactedFront(w, a);
    SamePart(w, a, Compacted(w, a), a, WORDS - a, b - a, 3 + |l.pages|);
    SameList(w, b, Compacted(w, a), b, l);
  }

  // ---- opening a list

  lemma {:induction false} OpenRoom(g: Page, xid: nat)
    requires Opens(g, xid)
    ensures EndOf(g) % 8 == 0 && EndOf(g) / 4 + 4 <= WORDS
  {
    NewTail(g, xid);
    EndWords(g);
    SizeAppend(g.lists, [List(xid, [])]);
    SizeOne(List(xid, []));
    AlignedHeader();
  }

  /** The pages found behind a header at word `a` that counts `n`. */
  predicate FoundAt(w: seq<nat>, a: nat, n: nat, stale: seq<nat>) {
    |stale| == n && a + 3 + n <= |w| && w[a + 3..a + 3 + n] == stale
  }

  /** After the first write, of the state, the words mean the half-open page, */
  lemma {:induction false} HalfOpenMeans(w: seq<nat>, g: Page, xid: nat, stale: seq<nat>)
    requires Means(w, g) && Opens(g, xid) && FoundAt(w, EndOf(g) / 4, g.junk.npages, stale)
    ensures Laid(w, g.head / 4, HalfOpen(g, stale).lists)
  {
    hide HeaderAt;
    hide Laid;
    OpenRoom(g, xid);
    EndWords(g);
    LaidAppend(w, g.head / 4, g.lists, [List(g.junk.xid, stale)]);
    LaidOne(w, EndOf(g) / 4, List(g.junk.xid, stale));
  }

  lemma {:induction false} HeaderStored(w: seq<nat>, a: nat, xid: nat, n: nat)
    requires a + 3 <= |w|
    ensures HeaderAt(CountStored(XidStored(w, a, xid), a, n), a) == Header(xid, n)
    ensures HeaderAt(XidStored(w, a, xid), a) == Header(xid, w[a + 2])
  {
  }

  lemma {:induction false} HeaderApart(w: seq<nat>, a: nat, xid: nat, n: nat)
    requires a + 3 <= |w|
    ensures var v := CountStored(XidStored(w, a, xid), a, n);
            |v| == |w| && Same(w, 0, v, 0, a) && Same(w, a + 3, v, a + 3, |w| - a - 3)
  {
  }

  /** and after the writes of the header the page with the new list. */
  lemma {:induction false} OpenedMeans(w: seq<nat>, g: Page, xid: nat)
    requires Means(w, g) && Opens(g, xid)
    ensures EndOf(g) / 4 + 4 <= WORDS
    ensures var v := CountStored(XidStored(w, EndOf(g) / 4, xid), EndOf(g) / 4, 0);
            forall junk | EndOf(g) / 4 + 7 <= WORDS ==> junk == HeaderAt(v, EndOf(g) / 4 + 4) ::
              Means(v, Next(g, xid).0.(junk := junk))
  {
    hide HeaderAt;
    hide Laid;
    hide Same;
    hide XidStored;
    hide CountStored;
    hide SizeOf;
    OpenRoom(g, xid);
    EndWords(g);
    NewTail(g, xid);
    var e, l := EndOf(g) / 4, List(xid, []);
    var v := CountStored(XidStored(w, e, xid), e, 0);
    HeaderStored(w, e, xid, 0);
    HeaderApart(w, e, xid, 0);
    SamePart(w, 0, v, 0, e, g.head / 4, SizeOf(g.lists) / 4);
    SameLaid(w, g.head / 4, v, g.head / 4, g.lists);
    LaidAppend(v, g.head / 4, g.lists, [l]);
    LaidOne(v, e, l);
    SizeAppend(g.lists, [l]);
    SizeOne(l);
    AlignedHeader();
  }

  // ---- filling the last list

  /** The last list by itself: the lists before it, its place and its header. */
  lemma {:induction false} LastAt(w: seq<nat>, g: Page)
    requires Means(w, g) && g.lists != []
    ensures var n := |g.lists| - 1;
            && Laid(w, g.head / 4, g.lists[..n]) && ListAt(w, TailAt(g) / 4, g.lists[n])
            && TailAt(g) % 8 == 0 && TailAt(g) / 4 == g.head / 4 + SizeOf(g.lists[..n]) / 4
            && EndOf(g) / 4 == TailAt(g) / 4 + ListSize(|g.lists[n].pages|) / 4 <= WORDS
  {
    hide ListAt;
    hide ListSize;
    hide Laid;
    hide SizeOf;
    var n := |g.lists| - 1;
    assert g.lists == g.lists[..n] + [g.lists[n]];
    LaidAppend(w, g.head / 4, g.lists[..n], [g.lists[n]]);
    LaidOne(w, g.head / 4 + SizeOf(g.lists[..n]) / 4, g.lists[n]);
    SizeAppend(g.lists[..n], [g.lists[n]]);
    SizeAligned(g.lists[..n]);
    SizeOne(g.lists[n]);
    ListWords(|g.lists[n].pages|);
    EndWords(g);
    Quarters(g.head, SizeOf(g.lists[..n]));
    Quarters(TailAt(g), ListSize(|g.lists[n].pages|));
  }

  /** The header the code reads at the tail. */
  lemma {:induction false} TailHeader(w: seq<nat>, g: Page)
    requires Means(w, g) && TailAt(g) / 4 + 3 <= WORDS
    ensures HeaderAt(w, TailAt(g) / 4) == Last(g)
  {
    hide Laid;
    hide HeaderAt;
    if g.lists != [] {
      LastAt(w, g);
    }
  }

  lemma {:induction false} ListStored(w: seq<nat>, a: nat, l: List, pages: seq<nat>)
    requires ListAt(w, a, l) && a + 3 + |l.pages| + |pages| <= |w|
    ensures var v := CountStored(PagesStored(w, a, |l.pages|, pages), a, |l.pages| + |pages|);
            && |v| == |w| && ListAt(v, a, l.(pages := l.pages + pages)) && Same(w, 0, v, 0, a)
            && var e := a + 3 + |l.pages| + |pages|; Same(w, e, v, e, |w| - e)
  {
    var n := |l.pages|;
    var u := PagesStored(w, a, n, pages);
    var v := CountStored(u, a, n + |pages|);
    assert v[a + 3..a + 3 + n + |pages|] == u[a + 3..a + 3 + n + |pages|] == w[a + 3..a + 3 + n] + pages;
    assert u[a] == w[a] && u[a + 1] == w[a + 1];
  }

  lemma {:induction false} PagesApart(w: seq<nat>, a: nat, n: nat, pages: seq<nat>)
    requires a + 3 + n + |pages| <= |w|
    ensures var v, e := CountStored(PagesStored(w, a, n, pages), a, n + |pages|), a + 3 + n + |pages|;
            |v| == |w| && Same(w, e, v, e, |w| - e)
  {
  }

  /** Pages copied behind the last list mean nothing before they are counted; */
  lemma {:induction false} CopiedBehind(w: seq<nat>, g: Page, pages: seq<nat>)
    requires Means(w, g) && g.lists != [] && 4 * |pages| <= Remain(g)
    ensures TailAt(g) / 4 + 3 + Last(g).npages + |pages| <= WORDS
    ensures Laid(PagesStored(w, TailAt(g) / 4, Last(g).npages, pages), g.head / 4, g.lists)
  {
    hide HeaderAt;
    hide ListAt;
    hide Laid;
    hide Same;
    hide ListSize;
    hide SizeOf;
    RemainLast(g);
    LastAt(w, g);
    var a, m := TailAt(g) / 4, |g.lists| - 1;
    var l := g.lists[m];
    var v := PagesStored(w, a, |l.pages|, pages);
    FrontKept(w, a, |l.pages|, pages);
    SamePart(w, 0, v, 0, a + 3 + |l.pages|, g.head / 4, SizeOf(g.lists[..m]) / 4);
    SamePart(w, 0, v, 0, a + 3 + |l.pages|, a, 3 + |l.pages|);
    SameLaid(w, g.head / 4, v, g.head / 4, g.lists[..m]);
    SameList(w, a, v, a, l);
    assert g.lists == g.lists[..m] + [l];
    LaidAppend(v, g.head / 4, g.lists[..m], [l]);
    LaidOne(v, a, l);
  }

  lemma {:induction false} FrontKept(w: seq<nat>, a: nat, n: nat, pages: seq<nat>)
    requires a + 3 + n + |pages| <= |w|
    ensures Same(w, 0, PagesStored(w, a, n, pages), 0, a + 3 + n)
  {
  }

  /** once they are, they fill it. */
  lemma {:induction false} FilledMeans(w: seq<nat>, g: Page, pages: seq<nat>)
    requires Means(w, g) && g.lists != [] && 4 * |pages| <= Remain(g)
    ensures var a, n := TailAt(g) / 4, Last(g).npages;
            && a + 3 + n + |pages| <= WORDS
            && var v := CountStored(PagesStored(w, a, n, pages), a, n + |pages|);
               forall junk | EndOf(Fill(g, pages, junk)) / 4 + 3 <= WORDS ==> junk == HeaderAt(v, EndOf(Fill(g, pages, junk)) / 4) ::
                 Means(v, Fill(g, pages, junk))
  {
    hide HeaderAt;
    hide ListAt;
    hide Laid;
    hide Same;
    hide ListSize;
    hide SizeOf;
    hide PagesStored;
    hide CountStored;
    RemainLast(g);
    LastAt(w, g);
    var a, m := TailAt(g) / 4, |g.lists| - 1;
    var l := g.lists[m];
    ListStored(w, a, l, pages);
    var v := CountStored(PagesStored(w, a, |l.pages|, pages), a, |l.pages| + |pages|);
    forall junk | EndOf(Fill(g, pages, junk)) / 4 + 3 <= WORDS ==> junk == HeaderAt(v, EndOf(Fill(g, pages, junk)) / 4)
      ensures Means(v, Fill(g, pages, junk))
    {
      var h := Fill(g, pages, junk);
      FillSize(g, pages, junk);
      SamePart(w, 0, v, 0, a, g.head / 4, SizeOf(g.lists[..m]) / 4);
      SameLaid(w, g.head / 4, v, g.head / 4, g.lists[..m]);
      assert h.lists == g.lists[..m] + [h.lists[m]];
      LaidAppend(v, g.head / 4, g.lists[..m], [h.lists[m]]);
      LaidOne(v, a, h.lists[m]);
    }
  }

  // ---- what a list opened next would find

  /** Nothing was written from word `a` on. */
  predicate Blank(w: seq<nat>, a: nat) {
    forall i | a <= i < |w| :: w[i] == 0
  }

  lemma {:induction false} BlankJunk(w: seq<nat>, g: Page)
    requires Means(w, g) && Blank(w, EndOf(g) / 4) && EndOf(g) / 4 + 3 <= WORDS
    ensures g.junk == Header(0, 0)
  {
    hide Laid;
  }

  lemma {:induction false} BlankOpened(w: seq<nat>, g: Page, xid: nat)
    requires Opens(g, xid) && |w| == WORDS && Blank(w, EndOf(g) / 4)
    ensures EndOf(g) / 4 + 4 <= WORDS
    ensures Blank(CountStored(XidStored(w, EndOf(g) / 4, xid), EndOf(g) / 4, 0), EndOf(Next(g, xid).0) / 4)
  {
    OpenRoom(g, xid);
    NewTail(g, xid);
    SizeAppend(g.lists, [List(xid, [])]);
    SizeOne(List(xid, []));
    AlignedHeader();
    EndWords(g);
  }

  lemma {:induction false} BlankFilled(w: seq<nat>, g: Page, pages: seq<nat>, junk: Header)
    requires Means(w, g) && g.lists != [] && 4 * |pages| <= Remain(g) && Blank(w, EndOf(g) / 4)
    ensures TailAt(g) / 4 + 3 + Last(g).npages + |pages| <= WORDS
    ensures Blank(CountStored(PagesStored(w, TailAt(g) / 4, Last(g).npages, pages), TailAt(g) / 4, Last(g).npages + |pages|),
                  EndOf(Fill(g, pages, junk)) / 4)
  {
    hide ListAt;
    hide Laid;
    hide ListSize;
    hide SizeOf;
    RemainLast(g);
    LastAt(w, g);
    var a, m := TailAt(g) / 4, |g.lists| - 1;
    var h := Fill(g, pages, junk);
    FillSize(g, pages, junk);
    assert h.lists == g.lists[..m] + [h.lists[m]];
    SizeAppend(g.lists[..m], [h.lists[m]]);
    SizeOne(h.lists[m]);
    ListWords(|g.lists[m].pages|);
    ListWords(|h.lists[m].pages|);
    SizeAligned(g.lists[..m]);
    SizesMonotone(|g.lists[m].pages|, |h.lists[m].pages|);
  }

  lemma {:induction false} SizesMonotone(a: nat, b: nat)
    requires a <= b
    ensures ListSize(a) <= ListSize(b)
  {
  }

  /** The same page before, with the first list used up, moved, with a list opened, and with that list filled. */
  function Twice(l1: seq<nat>, l2: seq<nat>, junk: Header): Page {
    Page(1, 0, 0, [List(0, l1), List(5, l2)], junk)
  }

  function UsedUp(l2: seq<nat>, junk: Header): Page {
    Page(1, 2056, 0, [List(5, l2)], junk)
  }

  function Reused(l2: seq<nat>, more: seq<nat>): Page {
    Page(1, 0, 0, [List(5, l2), List(9, more)], Header(5, 100))
  }

  lemma {:induction false} ListSizes()
    ensures ListSize(510) == 2056 && ListSize(100) == 416 && ListSize(406) == 1640 && ListSize(0) == 16
    ensures Fresh(9) == 1
  {
  }

  lemma {:induction false} TwoSizes(a: List, b: List)
    ensures SizeOf([a, b]) == ListSize(|a.pages|) + ListSize(|b.pages|) && SizeOf([a]) == ListSize(|a.pages|)
  {
    hide ListSize;
    hide SizeOf;
    assert [a, b] == [a] + [b];
    SizeAppend([a], [b]);
    SizeOne(a);
    SizeOne(b);
  }

  lemma {:induction false} FirstUsed(l1: seq<nat>, l2: seq<nat>, junk: Header, xmin: int)
    requires |l1| == 510 && |l2| == 100
    ensures Left([Twice(l1, l2, junk)], 510, xmin) == [UsedUp(l2, junk)]
  {
    var g := Twice(l1, l2, junk);
    ListSizes();
    assert g.lists[1..] == [List(5, l2)];
    assert [Dropped(g)] + [g][1..] == [Dropped(g)];
    LeftStep([g], 510, xmin);
    LeftFromStep([g], 510, xmin);
    LeftStep([Dropped(g)], 0, xmin);
  }

  lemma {:induction false} UsedSeen(l2: seq<nat>, junk: Header, under: Header)
    requires |l2| == 100
    ensures var g := UsedUp(l2, junk);
            PageOk(g) && SizeOf(g.lists) == 416 && Seen(g, 406, 9, under) == Moved(g, under) && Opens(Moved(g, under), 9)
  {
    hide ListSize;
    hide Fresh;
    var g := UsedUp(l2, junk);
    ListSizes();
    TwoSizes(g.lists[0], g.lists[0]);
    assert g.lists[..0] == [] && SizeOf([]) == 0;
    assert Remain(g) == 1604 && Promise(g, 9) == 397;
    MovedOk(g, under);
    MovedRemain(g, under);
    assert Needed(g, 406, 9) == 1;
  }

  /** The words written by compaction, by opening a list and by filling it. */
  function Rewritten(w: seq<nat>, more: seq<nat>): seq<nat>
    requires |w| == WORDS && |more| == 406
  {
    var v := CountStored(XidStored(Compacted(w, 514), 104, 9), 104, 0);
    CountStored(PagesStored(v, 104, 0, more), 104, 406)
  }

  /** After compaction the old copy of the list is found behind the lists again, */
  lemma {:induction false} CopyFound(w: seq<nat>, l1: seq<nat>, l2: seq<nat>, more: seq<nat>, junk: Header)
    requires |l1| == 510 && |l2| == 100 && |more| == 406 && Means(w, Twice(l1, l2, junk))
    ensures Means(w, UsedUp(l2, junk)) && ListAt(Rewritten(w, more), 514, List(5, l2))
  {
    hide ListSize;
    hide HeaderAt;
    hide Same;
    hide Compacted;
    hide XidStored;
    hide CountStored;
    hide PagesStored;
    hide ListAt;
    ListSizes();
    var g := Twice(l1, l2, junk);
    assert g.lists[1..] == [List(5, l2)];
    TwoSizes(g.lists[0], g.lists[1]);
    TwoSizes(g.lists[1], g.lists[1]);
    LaidOne(w, 514, List(5, l2));
    OldCopy(w, 514, 514, List(5, l2));
    var u := Compacted(w, 514);
    CompactedFront(w, 514);
    var v := CountStored(XidStored(u, 104, 9), 104, 0);
    HeaderApart(u, 104, 9, 0);
    SamePart(u, 107, v, 107, WORDS - 107, 407, 103);
    SameList(u, 514, v, 514, List(5, l2));
    PagesApart(v, 104, 0, more);
    SamePart(v, 513, Rewritten(w, more), 513, WORDS - 513, 1, 103);
    SameList(v, 514, Rewritten(w, more), 514, List(5, l2));
  }

  lemma {:induction false} OpenedNine(l2: seq<nat>, junk: Header, under: Header)
    requires |l2| == 100
    ensures var m := Moved(UsedUp(l2, junk), under);
            && Opens(m, 9) && m.no == 1 && m.head == 0 && m.nskip == 0 && EndOf(m) == 416 && Next(m, 9).0 == m.(lists := [List(5, l2), List(9, [])])
            && TailAt(Next(m, 9).0) == 416 && Remain(Next(m, 9).0) == 3644
  {
    hide ListSize;
    UsedSeen(l2, junk, under);
    var m := Moved(UsedUp(l2, junk), under);
    NewTail(m, 9);
    assert m.lists + [List(9, [])] == [List(5, l2), List(9, [])];
  }

  lemma {:induction false} ReusedMeans(w: seq<nat>, l2: seq<nat>, more: seq<nat>, junk: Header)
    requires |l2| == 100 && |more| == 406 && Means(w, UsedUp(l2, junk)) && ListAt(Rewritten(w, more), 514, List(5, l2))
    ensures Means(Rewritten(w, more), Reused(l2, more))
  {
    hide Means;
    hide HeaderAt;
    hide Compacted;
    hide XidStored;
    hide CountStored;
    hide PagesStored;
    hide Moved;
    hide Next;
    hide Remain;
    hide TailAt;
    hide Opens;
    ReusedOpens(l2, more);
    MeansLength(w, UsedUp(l2, junk));
    UsedSeen(l2, junk, junk);
    var u := Compacted(w, 514);
    CompactedFront(w, 514);
    var under := HeaderAt(u, 104);
    CompactedMeans(w, UsedUp(l2, junk), under);
    var m := Moved(UsedUp(l2, junk), under);
    OpenedNine(l2, junk, under);
    OpenedMeans(u, m, 9);
    var v := CountStored(XidStored(u, 104, 9), 104, 0);
    HeaderApart(u, 104, 9, 0);
    var n := Next(m, 9).0.(junk := HeaderAt(v, 108));
    assert Means(v, n);
    FilledNine(v, n, l2, more);
  }

  lemma {:induction false} MeansLength(w: seq<nat>, g: Page)
    requires Means(w, g)
    ensures |w| == WORDS
  {
  }

  lemma {:induction false} FilledNine(v: seq<nat>, n: Page, l2: seq<nat>, more: seq<nat>)
    requires |l2| == 100 && |more| == 406 && Means(v, n) && n == Page(1, 0, 0, [List(5, l2), List(9, [])], n.junk)
    requires |v| == WORDS && ListAt(CountStored(PagesStored(v, 104, 0, more), 104, 406), 514, List(5, l2))
    ensures Means(CountStored(PagesStored(v, 104, 0, more), 104, 406), Reused(l2, more))
  {
    hide Means;
    hide HeaderAt;
    hide CountStored;
    hide PagesStored;
    hide ListSize;
    ListSizes();
    TwoSizes(n.lists[0], n.lists[1]);
    assert n.lists[..1] == [n.lists[0]];
    assert TailAt(n) == 416 && Last(n) == Header(9, 0) && Remain(n) == 3644;
    ReusedOpens(l2, more);
    assert [] + more == more && Fill(n, more, Header(5, 100)).lists == Reused(l2, more).lists;
    FilledMeans(v, n, more);
  }

  lemma {:induction false} ReusedOpens(l2: seq<nat>, more: seq<nat>)
    requires |l2| == 100 && |more| == 406
    ensures var g := Reused(l2, more);
            && EndOf(g) == 2056 && Opens(g, 10) && PageOk(HalfOpen(g, l2)) && PageTags(g) == Tags(5, l2) + Tags(9, more)
  {
    hide ListSize;
    hide Tags;
    ListSizes();
    var g := Reused(l2, more);
    TwoSizes(g.lists[0], g.lists[1]);
    assert g.lists[..1] == [g.lists[0]] && g.lists[1..] == [g.lists[1]] && l2[0..] == l2;
    OneList(g.lists[1]);
    SizeAppend(g.lists, [List(5, l2)]);
    SizeOne(List(5, l2));
  }

  /** so that the next list is opened over a header that counts them: stopped there, the page lists each of them
      twice, once before and once behind the pages freed in between. */
  lemma {:induction false} StaleCopy(w: seq<nat>, l1: seq<nat>, l2: seq<nat>, more: seq<nat>, junk: Header, under: Header, xmin: int)
    requires |l1| == 510 && |l2| == 100 && |more| == 406 && Means(w, Twice(l1, l2, junk))
    ensures Left([Twice(l1, l2, junk)], 510, xmin) == [UsedUp(l2, junk)]
    ensures Seen(UsedUp(l2, junk), 406, 9, under) == Moved(UsedUp(l2, junk), under)
    ensures var g := Reused(l2, more);
            && Means(Rewritten(w, more), g) && Opens(g, 10) && PageOk(HalfOpen(g, l2))
            && Laid(Rewritten(w, more), 0, HalfOpen(g, l2).lists)
            && PageTags(HalfOpen(g, l2)) == Tags(5, l2) + Tags(9, more) + Tags(5, l2)
  {
    hide Means;
    hide Rewritten;
    hide Left;
    hide Seen;
    hide Laid;
    hide Moved;
    hide HeaderAt;
    MeansLength(w, Twice(l1, l2, junk));
    FirstUsed(l1, l2, junk, xmin);
    UsedSeen(l2, junk, under);
    CopyFound(w, l1, l2, more, junk);
    ReusedMeans(w, l2, more, junk);
    ReusedOpens(l2, more);
    var g := Reused(l2, more);
    HalfOpenTags(g, 10, l2);
    HalfOpenMeans(Rewritten(w, more), g, 10, l2);
  }

  // ---- the page in place

  class GcPage {
    const no: nat
    /** The data words and the fields of EdPgGcState. */
    const data: array<nat>
    var head: nat
    var tail: nat
    var nlists: nat
    var nskip: nat

    ghost predicate Holds(g: Page)
      reads this, data
    {
      && data.Length == WORDS && Means(data[..], g)
      && no == g.no && head == g.head && nskip == g.nskip && nlists == |g.lists| && tail == TailAt(g)
    }

    /** gc_list_init but for its list: a page of zeros. */
    constructor (no: nat)
      ensures Holds(Page(no, 0, 0, [], Header(0, 0))) && fresh(data) && Blank(data[..], 0)
    {
      this.no, head, tail, nlists, nskip := no, 0, 0, 0, 0;
      data := new nat[WORDS](_ => 0);
    }

    /** gc_list_remain; negative trips its assertion. */
    method Room(ghost g: Page) returns (r: int)
      requires Holds(g)
      ensures if Remain(g) >= 0 then r == Remain(g) else r < 0
    {
      hide Means;
      hide HeaderAt;
      TailRange(data[..], g);
      if tail / 4 + 3 > WORDS {
        return -1;
      }
      TailHeader(data[..], g);
      CountAt(data[..], tail / 4);
      r := DATA - tail - HEADER - 4 * data[tail / 4 + 2];
    }

    /** gc_list_npages_for. */
    method PagesFor(xid: nat, ghost g: Page) returns (n: int)
      requires Holds(g) && Remain(g) >= 0
      ensures n == Promise(g, xid)
    {
      hide Means;
      hide HeaderAt;
      hide Remain;
      hide NewListPages;
      var r := Room(g);
      TailRange(data[..], g);
      TailHeader(data[..], g);
      var last := HeaderAt(data[..], tail / 4);
      if xid <= last.xid {
        return r / 4;
      }
      n := NewListPages(DATA - (DATA - r + 7) / 8 * 8);
    }

    /** The first write of gc_list_next: the state counts one more list. */
    method CountList(xid: nat, ghost g: Page)
      requires Holds(g) && Opens(g, xid)
      modifies `tail, `nlists
      ensures tail == EndOf(g) && nlists == |g.lists| + 1 && tail / 4 + 4 <= WORDS
      ensures forall stale | FoundAt(data[..], tail / 4, g.junk.npages, stale) :: Laid(data[..], head / 4, HalfOpen(g, stale).lists)
    {
      hide HalfOpen;
      hide ListSize;
      hide SizeOf;
      hide PageOk;
      hide Means;
      hide HeaderAt;
      hide Laid;
      hide Remain;
      hide FoundAt;
      ghost var w := data[..];
      OpenRoom(g, xid);
      TailRange(w, g);
      TailEnd(w, g);
      if nlists > 0 {
        tail := tail + ListSize(data[tail / 4 + 2]);
      } else {
        tail := head;
      }
      nlists := nlists + 1;
      forall stale | FoundAt(w, tail / 4, g.junk.npages, stale) ensures Laid(w, head / 4, HalfOpen(g, stale).lists) {
        HalfOpenMeans(w, g, xid, stale);
      }
    }

    /** gc_list_next: the last list if it may take more, or a new one: its state, then the two parts of its header. */
    method NextList(xid: nat, ghost g: Page) returns (ok: bool, ghost h: Page)
      requires Holds(g) && Remain(g) >= 0
      modifies `tail, `nlists, data
      ensures ok == Next(g, xid).1 && h == Next(g, xid).0.(junk := h.junk) && (!ok ==> h == g) && Holds(h)
      // pages join the last list unless they were freed after it; else they get a list of their own
      ensures var joins := g.lists != [] && xid <= g.lists[|g.lists| - 1].xid;
              && ok == (Remain(g) >= if joins then 4 else 16)
              && h.lists == (if ok && !joins then g.lists + [List(xid, [])] else g.lists)
      ensures old(Blank(data[..], EndOf(g) / 4)) ==> Blank(data[..], EndOf(h) / 4)
    {
      hide Means;
      hide HeaderAt;
      hide Remain;
      hide Blank;
      hide Laid;
      hide TailAt;
      hide EndOf;
      h := g;
      var r := Room(g);
      TailRange(data[..], g);
      TailHeader(data[..], g);
      if nlists > 0 && xid <= HeaderAt(data[..], tail / 4).xid {
        return r >= 4, h;
      }
      if r < STRUCT {
        return false, h;
      }
      ghost var w := data[..];
      CountList(xid, g);
      var a := tail / 4;
      data[a], data[a + 1] := xid % 0x1_0000_0000, xid / 0x1_0000_0000;
      data[a + 2] := 0;
      assert data[..] == CountStored(XidStored(w, a, xid), a, 0);
      OpenedMeans(w, g, xid);
      ghost var junk := if a + 7 <= WORDS then HeaderAt(data[..], a + 4) else g.junk;
      OpenedEnd(g, xid, junk);
      if Blank(w, a) {
        BlankOpened(w, g, xid);
      }
      h := Next(g, xid).0.(junk := junk);
      ok := true;
    }

    /** A round of the loop in ed_free_pgno: pages copied behind the last list, then counted. */
    method Append(pages: seq<nat>, ghost g: Page) returns (ghost h: Page)
      requires Holds(g) && nlists > 0 && 4 * |pages| <= Remain(g)
      modifies data
      ensures h == Fill(g, pages, h.junk) && Holds(h)
      ensures old(Blank(data[..], EndOf(g) / 4)) ==> Blank(data[..], EndOf(h) / 4)
    {
      hide Means;
      hide HeaderAt;
      hide Remain;
      hide Blank;
      hide Laid;
      hide TailAt;
      hide EndOf;
      hide Fill;
      TailRange(data[..], g);
      TailHeader(data[..], g);
      CountAt(data[..], tail / 4);
      FilledMeans(data[..], g, pages);
      ghost var w := data[..];
      var a := tail / 4;
      var n := data[a + 2];
      forall i | 0 <= i < |pages| {
        data[a + 3 + n + i] := pages[i];
      }
      assert data[..] == PagesStored(w, a, n, pages);
      data[a + 2] := n + |pages|;
      assert data[..] == CountStored(PagesStored(w, a, n, pages), a, n + |pages|);
      ghost var e := EndOf(Fill(g, pages, g.junk)) / 4;
      ghost var junk := if e + 3 <= WORDS then HeaderAt(data[..], e) else g.junk;
      h := Fill(g, pages, junk);
      FilledEnd(g, pages, g.junk, junk);
      if Blank(w, EndOf(g) / 4) {
        BlankFilled(w, g, pages, h.junk);
      }
    }

    /** The lists copied to the front, and the state after that. */
    method Compact(ghost g: Page) returns (ghost under: Header)
      requires Holds(g) && 2 * head >= DATA
      modifies `head, `tail, data
      ensures Holds(Moved(g, under))
    {
      hide Means;
      hide HeaderAt;
      hide Laid;
      ghost var w := data[..];
      TailRange(w, g);
      var a := head / 4;
      forall i | 0 <= i < WORDS - a {
        data[i] := data[a + i];
      }
      assert data[..] == Compacted(w, a);
      CopiedMeans(w, g);
      under := if SizeOf(g.lists) / 4 + 3 <= WORDS then HeaderAt(data[..], SizeOf(g.lists) / 4) else g.junk;
      CompactedMeans(w, g, under);
      tail, head := tail - head, 0;
    }
  }

  lemma {:induction false} CountAt(w: seq<nat>, a: nat)
    requires a + 3 <= |w|
    ensures HeaderAt(w, a).npages == w[a + 2]
  {
  }

  lemma {:induction false} TailRange(w: seq<nat>, g: Page)
    requires Means(w, g)
    ensures |w| == WORDS && PageOk(g) && g.head % 8 == 0 && g.head <= TailAt(g) <= DATA && TailAt(g) % 8 == 0
    ensures Remain(g) >= 0 ==> TailAt(g) / 4 + 3 <= WORDS
  {
    hide SizeOf;
    hide Laid;
    if g.lists != [] {
      RemainLast(g);
      LastAt(w, g);
    }
  }

  /** Where the next list goes, from the count the code reads at the tail. */
  lemma {:induction false} TailEnd(w: seq<nat>, g: Page)
    requires Means(w, g) && Remain(g) >= 0
    ensures TailAt(g) / 4 + 3 <= |w|
    ensures EndOf(g) == if g.lists != [] then TailAt(g) + ListSize(w[TailAt(g) / 4 + 2]) else g.head
  {
    hide HeaderAt;
    hide ListSize;
    hide SizeOf;
    hide Laid;
    TailRange(w, g);
    TailHeader(w, g);
    CountAt(w, TailAt(g) / 4);
    if g.lists != [] {
      RemainLast(g);
    } else {
      NoLists();
    }
  }

  lemma {:induction false} OpenedEnd(g: Page, xid: nat, junk: Header)
    requires Opens(g, xid)
    ensures var h := g.(lists := g.lists + [List(xid, [])], junk := junk);
            && Next(g, xid).1 && h == Next(g, xid).0.(junk := junk) && TailAt(h) == EndOf(g)
            && EndOf(h) == EndOf(Next(g, xid).0) && EndOf(h) / 4 == EndOf(g) / 4 + 4
  {
    hide SizeOf;
    NewTail(g, xid);
    SizeAppend(g.lists, [List(xid, [])]);
    SizeOne(List(xid, []));
    AlignedHeader();
  }

  lemma {:induction false} FilledEnd(g: Page, pages: seq<nat>, junk: Header, other: Header)
    requires g.lists != []
    ensures var h, h' := Fill(g, pages, junk), Fill(g, pages, other);
            && EndOf(h) == EndOf(h') && TailAt(h') == TailAt(g) && |h'.lists| == |g.lists|
            && h'.no == g.no && h'.head == g.head && h'.nskip == g.nskip && h'.junk == other
  {
    assert Fill(g, pages, junk).lists == Fill(g, pages, other).lists;
    assert Fill(g, pages, other).lists[..|g.lists| - 1] == g.lists[..|g.lists| - 1];
  }
}
