/** One page of the free list (EdPgGc of lib/pg.c): lists of freed pages, each tagged with the
    transaction that freed them, packed one after the other. */
module Gc {

  /** Bytes for lists in a page, of a list's header, of a list struct, and pages of a list on a fresh page. */
  const DATA: nat := 4072
  const HEADER: nat := 12
  const STRUCT: nat := 16
  const LIST_MAX: nat := 1015

  datatype List = List(xid: nat, pages: seq<nat>)

  /** `head` is the byte offset of the first active list, `nskip` the pages of it already handed out.
      `junk` are the header bytes found behind the last list; a page whose lists are used up takes them for one. */
  datatype Page = Page(no: nat, head: nat, nskip: nat, lists: seq<List>, junk: Header)

  datatype Header = Header(xid: nat, npages: nat)

  function Align8(n: nat): nat {
    (n + 7) / 8 * 8
  }

  function ListSize(npages: nat): nat {
    Align8(HEADER + 4 * npages)
  }

  function SizeOf(lists: seq<List>): nat {
    if lists == [] then 0 else ListSize(|lists[0].pages|) + SizeOf(lists[1..])
  }

  predicate PageOk(g: Page) {
    && g.head % 8 == 0 && g.head + SizeOf(g.lists) <= DATA
    && g.nskip <= if g.lists == [] then 0 else |g.lists[0].pages|
  }

  lemma {:induction false} SizeAppend(a: seq<List>, b: seq<List>)
    ensures SizeOf(a + b) == SizeOf(a) + SizeOf(b)
  {
    if a == [] {
      assert a + b == b;
    } else {
      assert (a + b)[1..] == a[1..] + b;
      SizeAppend(a[1..], b);
    }
  }

  lemma {:induction false} SizeAligned(lists: seq<List>)
    ensures SizeOf(lists) % 8 == 0
  {
    if lists != [] {
      SizeAligned(lists[1..]);
    }
  }

  // ---- what a page holds, in the order it will be handed out

  datatype Tag = Tag(no: nat, xid: nat)

  function Tags(xid: nat, pages: seq<nat>): seq<Tag> {
    seq(|pages|, i requires 0 <= i < |pages| => Tag(pages[i], xid))
  }

  function ListTags(lists: seq<List>): seq<Tag> {
    if lists == [] then [] else Tags(lists[0].xid, lists[0].pages) + ListTags(lists[1..])
  }

  function PageTags(g: Page): seq<Tag>
    requires PageOk(g)
  {
    if g.lists == [] then [] else Tags(g.lists[0].xid, g.lists[0].pages[g.nskip..]) + ListTags(g.lists[1..])
  }

  lemma {:induction false} TagsAppend(xid: nat, a: seq<nat>, b: seq<nat>)
    ensures Tags(xid, a + b) == Tags(xid, a) + Tags(xid, b)
  {
  }

  lemma {:induction false} ListTagsAppend(a: seq<List>, b: seq<List>)
    ensures ListTags(a + b) == ListTags(a) + ListTags(b)
  {
    if a == [] {
      assert a + b == b;
    } else {
      assert (a + b)[1..] == a[1..] + b;
      ListTagsAppend(a[1..], b);
    }
  }

  // ---- the last list: gc_list_remain, gc_list_npages_for, gc_list_next

  /** Where the last list starts, or where the next one will. */
  function TailAt(g: Page): nat {
    g.head + if g.lists == [] then 0 else SizeOf(g.lists[..|g.lists| - 1])
  }

  /** The header found there. */
  function Last(g: Page): Header {
    if g.lists == [] then g.junk
    else Header(g.lists[|g.lists| - 1].xid, |g.lists[|g.lists| - 1].pages|)
  }

  /** gc_list_remain: bytes left behind the last list; negative trips an assertion. */
  function Remain(g: Page): int {
    DATA - TailAt(g) - HEADER - 4 * Last(g).npages
  }

  lemma {:induction false} RoomBehind(tail: nat, n: nat)
    requires tail % 8 == 0 && tail + ListSize(n) <= DATA
    ensures 0 <= DATA - tail - HEADER - 4 * n <= DATA && (DATA - tail - HEADER - 4 * n) % 4 == 0
  {
  }

  lemma {:induction false} SizeOne(l: List)
    ensures SizeOf([l]) == ListSize(|l.pages|)
  {
  }

  lemma {:induction false} RemainLast(g: Page)
    requires PageOk(g) && g.lists != []
    ensures TailAt(g) % 8 == 0 && TailAt(g) + ListSize(Last(g).npages) == g.head + SizeOf(g.lists)
    ensures 0 <= Remain(g) <= DATA && Remain(g) % 4 == 0
  {
    hide SizeOf;
    hide ListSize;
    var n := |g.lists| - 1;
    assert g.lists == g.lists[..n] + [g.lists[n]];
    SizeAppend(g.lists[..n], [g.lists[n]]);
    SizeAligned(g.lists[..n]);
    SizeOne(g.lists[n]);
    RoomBehind(TailAt(g), Last(g).npages);
  }

  /** gc_list_npages: pages of a new list in `size` bytes. */
  function NewListPages(size: int): int {
    if size <= HEADER then 0 else (size - HEADER) / 4
  }

  /** gc_list_npages_for: pages freed by `xid` that the page promises to take. */
  function Promise(g: Page, xid: nat): int {
    if xid <= Last(g).xid then Remain(g) / 4
    else NewListPages(DATA - (DATA - Remain(g) + 7) / 8 * 8)
  }

  /** gc_list_next: the page with a last list to append to, if there is room for one. */
  function Next(g: Page, xid: nat): (r: (Page, bool))
    ensures r.1 ==> r.0.lists != [] && Last(r.0).xid >= xid
    ensures !r.1 ==> r.0 == g
  {
    if g.lists != [] && xid <= Last(g).xid then (g, Remain(g) >= 4)
    else if Remain(g) < STRUCT then (g, false)
    else (g.(lists := g.lists + [List(xid, [])]), true)
  }

  /** Pages that gc_list_next and one fill of the list take. */
  function Capacity(g: Page, xid: nat): int {
    if Next(g, xid).1 then Remain(Next(g, xid).0) / 4 else 0
  }

  lemma {:induction false} Aligned(n: nat)
    ensures Align8(n) % 8 == 0 && n <= Align8(n) <= n + 7
    ensures n % 4 == 0 ==> Align8(n) <= n + 4
  {
  }

  lemma {:induction false} OpenedTags(g: Page, xid: nat)
    requires PageOk(g) && PageOk(g.(lists := g.lists + [List(xid, [])]))
    ensures PageTags(g.(lists := g.lists + [List(xid, [])])) == PageTags(g)
  {
    hide SizeOf;
    var h := g.(lists := g.lists + [List(xid, [])]);
    assert ListTags([List(xid, [])]) == [];
    if g.lists != [] {
      assert h.lists[1..] == g.lists[1..] + [List(xid, [])];
      ListTagsAppend(g.lists[1..], [List(xid, [])]);
    }
  }

  /** A new list opened behind the others. */
  lemma {:induction false} NewTail(g: Page, xid: nat)
    requires PageOk(g) && (g.lists == [] || xid > Last(g).xid) && Remain(g) >= STRUCT
    ensures var h := g.(lists := g.lists + [List(xid, [])]);
            && TailAt(h) == g.head + SizeOf(g.lists) && Remain(h) == DATA - TailAt(h) - HEADER
            && 0 <= Remain(h) && PageOk(h)
  {
    hide Align8;
    var h := g.(lists := g.lists + [List(xid, [])]);
    assert h.lists[..|h.lists| - 1] == g.lists;
    SizeAppend(g.lists, [List(xid, [])]);
    SizeAligned(g.lists);
    Aligned(HEADER);
    assert Align8(HEADER) == STRUCT by { AlignedHeader(); }
    assert SizeOf([List(xid, [])]) == STRUCT;
    if g.lists != [] {
      RemainLast(g);
      Aligned(HEADER + 4 * Last(g).npages);
    }
  }

  lemma {:induction false} AlignedHeader()
    ensures Align8(HEADER) == STRUCT
  {
  }

  /** gc_list_next keeps the page well-formed and everything on it. */
  lemma {:induction false} NextOk(g: Page, xid: nat)
    requires PageOk(g)
    ensures var r := Next(g, xid).0; PageOk(r) && PageTags(r) == PageTags(g) && r.no == g.no
    ensures Next(g, xid).1 ==> 0 <= Remain(Next(g, xid).0) <= DATA
  {
    if !(g.lists != [] && xid <= Last(g).xid) && Remain(g) >= STRUCT {
      NewTail(g, xid);
      OpenedTags(g, xid);
    } else if g.lists != [] {
      RemainLast(g);
    }
  }

  // ---- between the writes that open a list

  /** gc_list_next opens a new list. */
  predicate Opens(g: Page, xid: nat) {
    PageOk(g) && (g.lists == [] || xid > Last(g).xid) && Remain(g) >= STRUCT
  }

  /** The page once its state counts the new list, whose header is still to be written: the bytes found there are
      taken for a list of the pages behind them. */
  function HalfOpen(g: Page, stale: seq<nat>): Page {
    g.(lists := g.lists + [List(g.junk.xid, stale)])
  }

  /** Stopped there, the page lists what it listed if and only if the header found there counts no page. */
  lemma {:induction false} HalfOpenTags(g: Page, xid: nat, stale: seq<nat>)
    requires Opens(g, xid) && |stale| == g.junk.npages
    ensures var h := HalfOpen(g, stale);
            && (PageOk(h) ==> PageTags(h) == PageTags(g) + Tags(g.junk.xid, stale))
            && (PageOk(h) && PageTags(h) == PageTags(g) <==> g.junk.npages == 0)
  {
    hide Remain;
    hide SizeOf;
    var h, l := HalfOpen(g, stale), List(g.junk.xid, stale);
    OneList(l);
    if g.lists != [] {
      assert h.lists[1..] == g.lists[1..] + [l];
      ListTagsAppend(g.lists[1..], [l]);
    } else {
      assert h.lists[1..] == [];
    }
    if stale == [] {
      NewTail(g, xid);
      SizeAppend(g.lists, [l]);
      SizeAppend(g.lists, [List(xid, [])]);
      SizeOne(l);
      SizeOne(List(xid, []));
    }
  }

  lemma {:induction false} AlignShift(tail: nat, n: nat)
    requires tail % 8 == 0
    ensures Align8(tail + n) == tail + Align8(n)
  {
  }

  lemma {:induction false} SmallRoom(r: int)
    requires 0 <= r <= DATA
    ensures r < STRUCT ==> NewListPages(DATA - Align8(DATA - r)) == 0
    ensures NewListPages(DATA - Align8(DATA - r)) <= r / 4
  {
  }

  lemma {:induction false} PromiseNew(g: Page, xid: nat)
    requires PageOk(g) && g.lists != [] && xid > Last(g).xid && Remain(g) >= STRUCT
    ensures Promise(g, xid) == Capacity(g, xid)
  {
    hide SizeOf;
    hide PageOk;
    hide Align8;
    hide TailAt;
    RemainLast(g);
    NewTail(g, xid);
    var n := HEADER + 4 * Last(g).npages;
    AlignShift(TailAt(g), n);
    Aligned(n);
    assert Promise(g, xid) == NewListPages(DATA - Align8(DATA - Remain(g))) by { AlignWord(DATA - Remain(g)); }
  }

  lemma {:induction false} AlignWord(n: nat)
    ensures Align8(n) == (n + 7) / 8 * 8
  {
  }

  /** The promise holds exactly unless the page has no list, looks from the stale header as if it could
      merge, and has too little room left for a list struct. */
  lemma {:induction false} PromiseKept(g: Page, xid: nat)
    requires PageOk(g) && Remain(g) >= 0
    ensures Promise(g, xid) <= Capacity(g, xid) <==> !(g.lists == [] && xid <= g.junk.xid && 4 <= Remain(g) < STRUCT)
    ensures g.lists != [] ==> Promise(g, xid) == Capacity(g, xid)
  {
    hide SizeOf;
    hide PageOk;
    hide Align8;
    hide NewListPages;
    AlignWord(DATA - Remain(g));
    SmallRoom(Remain(g));
    if g.lists == [] {
      if Remain(g) >= STRUCT {
        NewTail(g, xid);
        assert SizeOf([]) == 0 by { NoLists(); }
      }
    } else if xid > Last(g).xid && Remain(g) >= STRUCT {
      PromiseNew(g, xid);
    }
  }

  lemma {:induction false} NoLists()
    ensures SizeOf([]) == 0
  {
  }

  /** A page emptied near its end, as ed_alloc leaves it: three pages are promised and none is taken. */
  lemma {:induction false} PromiseBroken()
    ensures var g := Page(1, 4048, 0, [], Header(0, 0));
            PageOk(g) && Promise(g, 0) == 3 && Capacity(g, 0) == 0
  {
  }

  // ---- filling the last list

  /** The last list with more pages; `junk` are the bytes found behind it then. */
  function Fill(g: Page, pages: seq<nat>, junk: Header): Page
    requires g.lists != []
  {
    var n := |g.lists| - 1;
    g.(lists := g.lists[n := g.lists[n].(pages := g.lists[n].pages + pages)], junk := junk)
  }

  lemma {:induction false} FillSize(g: Page, pages: seq<nat>, junk: Header)
    requires PageOk(g) && g.lists != [] && 4 * |pages| <= Remain(g)
    ensures var h := Fill(g, pages, junk);
            PageOk(h) && Last(h).xid == Last(g).xid && Remain(h) == Remain(g) - 4 * |pages|
  {
    hide Align8;
    var n := |g.lists| - 1;
    var h, l := Fill(g, pages, junk), g.lists[n];
    var m := l.(pages := l.pages + pages);
    RemainLast(g);
    assert g.lists == g.lists[..n] + [l] && h.lists == g.lists[..n] + [m];
    assert h.lists[..n] == g.lists[..n];
    SizeAppend(g.lists[..n], [l]);
    SizeAppend(g.lists[..n], [m]);
    SizeAligned(g.lists[..n]);
    assert SizeOf([m]) == ListSize(|m.pages|) && SizeOf([l]) == ListSize(|l.pages|);
    EndAligned(TailAt(g), HEADER + 4 * |m.pages|);
  }

  lemma {:induction false} EndAligned(tail: nat, n: nat)
    requires tail % 8 == 0 && tail + n <= DATA
    ensures tail + Align8(n) <= DATA
  {
  }

  lemma {:induction false} FillTags(g: Page, pages: seq<nat>, junk: Header)
    requires g.lists != [] && PageOk(g) && PageOk(Fill(g, pages, junk))
    ensures PageTags(Fill(g, pages, junk)) == PageTags(g) + Tags(Last(g).xid, pages)
  {
    hide SizeOf;
    hide Tags;
    var n := |g.lists| - 1;
    var h, l := Fill(g, pages, junk), g.lists[n];
    var m := l.(pages := l.pages + pages);
    if n == 0 {
      assert m.pages[g.nskip..] == l.pages[g.nskip..] + pages;
      TagsAppend(l.xid, l.pages[g.nskip..], pages);
      assert h.lists[1..] == g.lists[1..] == [];
    } else {
      LastTags(g.lists[1..], pages);
      assert h.lists[1..] == g.lists[1..][n - 1 := m];
    }
  }

  lemma {:induction false} OneList(l: List)
    ensures ListTags([l]) == Tags(l.xid, l.pages)
  {
    hide Tags;
    assert [l][1..] == [];
  }

  lemma {:induction false} LastTags(lists: seq<List>, pages: seq<nat>)
    requires lists != []
    ensures var n := |lists| - 1;
            ListTags(lists[n := lists[n].(pages := lists[n].pages + pages)]) == ListTags(lists) + Tags(lists[n].xid, pages)
  {
    hide Tags;
    hide ListTags;
    var n := |lists| - 1;
    var l := lists[n];
    var m := l.(pages := l.pages + pages);
    assert lists == lists[..n] + [l] && lists[n := m] == lists[..n] + [m];
    ListTagsAppend(lists[..n], [l]);
    ListTagsAppend(lists[..n], [m]);
    OneList(l);
    OneList(m);
    TagsAppend(l.xid, l.pages, pages);
  }

  /** Filling appends the pages, tagged like the list they go to. */
  lemma {:induction false} FillOk(g: Page, pages: seq<nat>, junk: Header)
    requires PageOk(g) && g.lists != [] && 4 * |pages| <= Remain(g)
    ensures var h := Fill(g, pages, junk);
            && PageOk(h) && PageTags(h) == PageTags(g) + Tags(Last(g).xid, pages) && h.no == g.no && h.lists != []
            && Last(h).xid == Last(g).xid && Remain(h) == Remain(g) - 4 * |pages|
  {
    hide PageOk;
    hide PageTags;
    hide Remain;
    FillSize(g, pages, junk);
    FillTags(g, pages, junk);
  }
}
