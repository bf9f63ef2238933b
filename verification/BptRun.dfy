/** Any run of ed_bpt_find, ed_bpt_first, ed_bpt_next, ed_bpt_set and ed_bpt_del, one call at a time, against a sorted
    list with a cursor. */
module BptRun {
  import opened BptTree
  import opened BptGrow
  import opened BptLeaf
  import opened BptStore
  import opened BptPut
  import opened BptSet
  import opened BptOrder
  import opened BptWhole
  import opened BptOutcome
  import opened BptFind
  import opened BptWalk
  import opened BptCost
  import opened Bpt

  /** One call; `left` is the key read where a leaf has no entries. */
  datatype Call = Find(k: nat) | First | Next(left: nat) | Set(e: Entry, replace: bool) | Del

  /** The list of all entries and a cursor in it, which is on entry `pos` or before it. */
  datatype Desk = Desk(all: seq<Entry>, pos: nat, found: bool, on: bool)

  ghost function DeskOf(c: Cursor, p: Place): Desk {
    Desk(Entries(p.tree), if c.hasfind then Pos(c, p) else 0, c.hasfind, c.hasfind && c.hasentry && !Stale(c, p))
  }

  /** What a call does to the list and the cursor. A walk may stop at leaves without entries on its way, and is then
      between two entries. */
  predicate Follows(d: Desk, call: Call, d': Desk) {
    match call
    case Find(k) => d' == Desk(d.all, Below(d.all, k), true, exists x | x in d.all :: x.key == k)
    case First => d'.all == d.all && d'.found && d'.pos == 0 && (d'.on ==> d.all != [])
    case Next(_) =>
      if !d.found then d' == d
      else
        var n := d.pos + if d.on then 1 else 0;
        && d'.all == d.all && d'.found && n <= |d.all| && (d'.pos == n || (n == |d.all| && d'.pos == 0))
        && (d'.on ==> d'.pos < |d.all| && d'.pos == if n < |d.all| then n else 0)
    case Set(e, replace) =>
      && d.pos <= |d.all| && (d.on ==> d.pos < |d.all|)
      && d' == Desk(if replace && d.on then d.all[d.pos := e] else d.all[..d.pos] + [e] + d.all[d.pos..], d.pos, true, true)
    case Del =>
      if d.on then d.pos < |d.all| && d' == Desk(d.all[..d.pos] + d.all[d.pos + 1..], d.pos, true, false) else d' == d
  }

  // ---- what a set needs

  /** Whether the cursor is where the last search for `key` put it, and whether a del was called since. */
  datatype Mode = Loose | Searched(key: nat, taken: bool)

  function Then(m: Mode, call: Call): Mode {
    match call
    case Find(k) => Searched(k, false)
    case First => Loose
    case Next(_) => Loose
    case Set(_, _) => if m.Searched? then Searched(m.key, false) else Loose
    case Del => if m.Searched? then Searched(m.key, true) else Loose
  }

  /** A set follows a search for its key, with nothing but sets and dels of that key in between, and writes over no entry
      right after a del, which leaves the match of the entry that is gone. */
  predicate Admits(m: Mode, call: Call) {
    match call
    case Find(k) => k <= KEY_MAX
    case Set(e, replace) => m.Searched? && e.key == m.key && (replace ==> !m.taken)
    case _ => true
  }

  predicate Proper(m: Mode, calls: seq<Call>)
    decreases |calls|
  {
    calls == [] || (Admits(m, calls[0]) && Proper(Then(m, calls[0]), calls[1..]))
  }

  /** The cursor is at the lower bound of the key, in a leaf whose range holds it, and a full leaf can be cut there. */
  ghost predicate Ready(o: Orders, c: Cursor, p: Place, m: Mode) {
    m.Searched? ==>
      && c.hasfind && c.key == m.key <= KEY_MAX && c.kmin <= m.key <= c.kmax && LowerBound(Entries(p.tree), m.key, Pos(c, p))
      && (p.tree.Some? ==> PathLow(p.fs) <= m.key <= PathHigh(p.fs) && p.leaf.TLeaf? && (|p.leaf.ents| == o.leaf ==> AtSearch(c, p)))
      && (!m.taken ==> !Stale(c, p) && c.matched == if c.hasentry then 1 else 0)
  }

  /** The cursor's leaf among all entries. */
  lemma {:induction false} LeafAmong(s: Txn, c: Cursor, p: Place)
    requires Standing(s, c, p) && !s.failed && c.hasfind && p.tree.Some?
    ensures p.leaf.TLeaf? && c.idx <= |p.leaf.ents| && SortedEntries(p.leaf.ents) && Within(p.leaf.ents, PathLow(p.fs), PathHigh(p.fs))
    ensures Entries(p.tree) == Before(p.fs) + p.leaf.ents + After(p.fs) && Pos(c, p) == |Before(p.fs)| + c.idx
    ensures s.o.leaf >= 2
  {
    hide Zip;
    hide Rooted;
    hide Plug;
    hide Before;
    LeafPlace(s, c, p);
    ZipFacts(s, p.fs, p.leaf);
    ZipRooted(s, p.fs, p.leaf);
  }

  /** A lower bound among all entries is one in the leaf. */
  lemma {:induction false} BoundIn(a: seq<Entry>, ents: seq<Entry>, b: seq<Entry>, key: nat, idx: nat)
    requires idx <= |ents| && LowerBound(a + ents + b, key, |a| + idx)
    ensures LowerBound(ents, key, idx)
  {
    var all := a + ents + b;
    assert forall i | 0 <= i < |ents| :: ents[i] == all[|a| + i];
  }

  lemma {:induction false} ReadySettable(s: Txn, c: Cursor, p: Place, m: Mode, e: Entry, replace: bool)
    requires Standing(s, c, p) && !s.failed && m.Searched? && Ready(s.o, c, p, m)
    requires e.key == m.key && (replace ==> !m.taken)
    ensures Accepted(s, c, e) && Settable(c, p, s.o, e, Replacing(c, p, replace))
    ensures Replacing(c, p, replace) == (replace && c.hasentry && !Stale(c, p))
  {
    hide LowerBound;
    hide BptLeaf.SplitPoint;
    hide Before;
    hide SortedEntries;
    hide PathLow;
    hide PathHigh;
    if p.tree.Some? {
      LeafAmong(s, c, p);
      BoundIn(Before(p.fs), p.leaf.ents, After(p.fs), e.key, c.idx);
      BoundFits(p.leaf.ents, e, c.idx, PathLow(p.fs), PathHigh(p.fs));
      if |p.leaf.ents| == s.o.leaf {
        SearchCut(p.leaf.ents, c.key, c.idx, c.nmatches);
      }
    }
  }

  lemma {:induction false} BoundFits(ents: seq<Entry>, e: Entry, idx: nat, lo: int, hi: int)
    requires LowerBound(ents, e.key, idx) && lo <= e.key <= hi
    ensures Fits(ents, idx, e, lo, hi)
  {
  }

  lemma {:induction false} NewBound(all: seq<Entry>, e: Entry, at: nat, replacing: bool)
    requires LowerBound(all, e.key, at) && (replacing ==> at < |all|)
    ensures LowerBound(NewEntries(all, at, e, replacing), e.key, at)
  {
    var r := NewEntries(all, at, e, replacing);
    if !replacing {
      assert forall i | 0 <= i < |r| :: r[i] == if i < at then all[i] else if i == at then e else all[i - 1];
    }
  }

  lemma {:induction false} LessBound(all: seq<Entry>, key: nat, at: nat)
    requires LowerBound(all, key, at) && at < |all|
    ensures LowerBound(RemoveAt(all, at), key, at)
  {
    var r := RemoveAt(all, at);
    assert forall i | 0 <= i < |r| :: r[i] == if i < at then all[i] else all[i + 1];
  }

  /** After a set the cursor is ready for the same key, */
  lemma {:induction false} SetReady(s: Txn, p: Place, at: nat, t: Txn, c: Cursor, q: Place, e: Entry, replacing: bool)
    requires SetDone(s, p, at, t, c.find, c.idx, q, e, replacing) && Standing(t, c, q) && !t.failed && e.key <= KEY_MAX
    requires c.key == c.kmax == e.key && c.kmin <= e.key && c.matched == c.nmatches == 1 && c.hasfind && c.hasentry
    requires LowerBound(Entries(p.tree), e.key, at)
    ensures Ready(t.o, c, q, Searched(e.key, false)) && !Stale(c, q)
  {
    hide Rooted;
    hide On;
    hide Plug;
    hide Before;
    hide LowerBound;
    hide SortedEntries;
    hide PathLow;
    hide PathHigh;
    hide Standing;
    SetDoneFacts(s, p, at, t, c, q, e, replacing);
    NewBound(Entries(p.tree), e, at, replacing);
    LeafAmong(t, c, q);
    BoundIn(Before(q.fs), q.leaf.ents, After(q.fs), e.key, c.idx);
    FirstOfKey(q.leaf.ents, e.key, c.idx);
  }

  lemma {:induction false} FirstOfKey(ents: seq<Entry>, key: nat, idx: nat)
    requires LowerBound(ents, key, idx) && idx < |ents| && ents[idx].key == key
    ensures BptLeaf.AtKey(ents, key, idx, 1)
  {
  }

  /** and after a del. */
  lemma {:induction false} DelReady(s: Txn, c: Cursor, p: Place, t: Txn, d: Cursor, q: Place, m: Mode)
    requires DelDone(s, c, p, t, d, q) && !t.failed && c.hasfind && p.tree.Some? && m.Searched? && Ready(s.o, c, p, m) && t.o == s.o
    ensures Ready(t.o, d, q, Searched(m.key, true))
  {
    hide Rooted;
    hide Plug;
    hide Before;
    hide LowerBound;
    hide SortedEntries;
    hide PathLow;
    hide PathHigh;
    hide Standing;
    LessBound(Entries(p.tree), m.key, Pos(c, p));
    if q.tree.Some? {
      LeafAmong(t, d, q);
      BoundIn(Before(q.fs), q.leaf.ents, After(q.fs), m.key, d.idx);
      BoundBelow(q.leaf.ents, m.key, d.idx, PathHigh(q.fs));
    }
  }

  lemma {:induction false} BoundBelow(ents: seq<Entry>, key: nat, idx: nat, hi: int)
    requires LowerBound(ents, key, idx) && key <= hi
    ensures key <= WindowHigh(ents, idx, hi)
  {
  }

  /** Right after the del of an entry that was found, a set that may replace does so, although the match is gone: it
      writes over the entry that followed, if the leaf has one, and behind the leaf's entries otherwise. */
  lemma {:induction false} DelThenSet(s: Txn, c: Cursor, p: Place, t: Txn, d: Cursor, q: Place, m: Mode, e: Entry)
    requires DelDone(s, c, p, t, d, q) && !t.failed && c.hasfind && p.tree.Some? && q.tree.Some? && t.o == s.o
    requires m.Searched? && Ready(s.o, c, p, m) && e.key == m.key
    ensures Accepted(t, d, e) && (Replacing(d, q, true) <==> c.matched == 1)
    ensures Settable(d, q, t.o, e, Replacing(d, q, true)) <==> !(c.matched == 1 && d.idx == |q.leaf.ents|)
  {
    hide Rooted;
    hide Plug;
    hide Before;
    hide LowerBound;
    hide SortedEntries;
    hide PathLow;
    hide PathHigh;
    hide Standing;
    DelReady(s, c, p, t, d, q, m);
    LeafAmong(t, d, q);
    BoundIn(Before(q.fs), q.leaf.ents, After(q.fs), m.key, d.idx);
    BoundFits(q.leaf.ents, e, d.idx, PathLow(q.fs), PathHigh(q.fs));
  }

  // ---- the calls

  /** A call takes no more pages than a set may cost in a tree of `levels`, which grows by one level at most; it fails only
      for want of pages or for another reason. */
  predicate Afforded(levels: nat, had: nat, levels': nat, has: nat, failed: bool, other: bool) {
    && (!failed ==> levels' <= levels + 1 && has + 2 * levels + 3 >= had)
    && (failed ==> had < 2 * levels + 3 || other)
  }

  /** Why a call may fail with pages left: a set into a leaf full of one key, first without a tree, del where there is no
      entry. */
  predicate Excused(d: Desk, call: Call, o: Orders) {
    match call
    case Set(_, _) => !Uncrowded(d.all, o.leaf)
    case First => d.all == []
    case Del => !d.on
    case _ => false
  }

  /** No page of an older transaction is written, and pages are only taken from the supply. */
  ghost predicate Untouched(a: map<nat, Page>, had: seq<nat>, b: map<nat, Page>, supply: seq<nat>, xid: nat) {
    CopyOnWrite(a, b, xid) && NoneAdded(had, supply)
  }

  /** ed_bpt_find. */
  method CallFind(db: Db, k: nat, ghost m: Mode)
    requires db.Valid() && !db.failed && k <= KEY_MAX
    modifies db
    ensures db.Valid() && Untouched(old(db.pages), old(db.supply), db.pages, db.supply, db.xid)
    ensures !db.failed ==>
              && Follows(old(DeskOf(db.cur, db.place)), Find(k), DeskOf(db.cur, db.place)) && Ready(db.o, db.cur, db.place, Then(m, Find(k)))
              && Pages(db.View(), db.place.tree) == old(Pages(db.View(), db.place.tree))
    ensures Afforded(old(Levels(db.place.tree)), old(|db.supply|), Levels(db.place.tree), |db.supply|, db.failed, false)
  {
    hide Standing;
    hide LowerBound;
    hide AtWindow;
    hide CopyOnWrite;
    ghost var s := db.View();
    CopyOnWriteSelf(s);
    var rc := db.Find(k);
    PathFree(s, db.View(), db.place.tree);
    BelowBound(db.Contents(), k, Pos(db.cur, db.place));
    FindReady(db.View(), db.cur, db.place);
  }

  /** ed_bpt_first. */
  method CallFirst(db: Db, ghost m: Mode)
    requires db.Valid() && !db.failed
    modifies db
    ensures db.Valid() && Untouched(old(db.pages), old(db.supply), db.pages, db.supply, db.xid)
    ensures !db.failed ==>
              && Follows(old(DeskOf(db.cur, db.place)), First, DeskOf(db.cur, db.place)) && Ready(db.o, db.cur, db.place, Then(m, First))
              && Pages(db.View(), db.place.tree) == old(Pages(db.View(), db.place.tree))
    ensures Afforded(old(Levels(db.place.tree)), old(|db.supply|), Levels(db.place.tree), |db.supply|, db.failed, old(db.Contents()) == [])
  {
    hide Standing;
    hide LowerBound;
    hide AtWindow;
    hide CopyOnWrite;
    ghost var s := db.View();
    CopyOnWriteSelf(s);
    var rc := db.First();
    if !db.failed {
      PathFree(s, db.View(), db.place.tree);
      if !Stale(db.cur, db.place) {
        VisitPlace(db.View(), db.cur, db.place);
      }
    }
  }

  /** ed_bpt_next. */
  method CallNext(db: Db, left: nat, ghost m: Mode)
    requires db.Valid() && !db.failed
    modifies db
    ensures db.Valid() && Untouched(old(db.pages), old(db.supply), db.pages, db.supply, db.xid)
    ensures !db.failed ==>
              && Follows(old(DeskOf(db.cur, db.place)), Next(left), DeskOf(db.cur, db.place)) && Ready(db.o, db.cur, db.place, Then(m, Next(left)))
              && Pages(db.View(), db.place.tree) == old(Pages(db.View(), db.place.tree))
    ensures Afforded(old(Levels(db.place.tree)), old(|db.supply|), Levels(db.place.tree), |db.supply|, db.failed, false)
  {
    hide Standing;
    hide LowerBound;
    hide AtWindow;
    hide CopyOnWrite;
    ghost var s := db.View();
    CopyOnWriteSelf(s);
    NextDesk(s, db.cur, db.place);
    var rc, n := db.Next(left);
    PathFree(s, db.View(), db.place.tree);
  }

  /** ed_bpt_set. */
  method CallSet(db: Db, e: Entry, replace: bool, ghost m: Mode)
    requires db.Valid() && !db.failed && Admits(m, Set(e, replace)) && Ready(db.o, db.cur, db.place, m)
    modifies db
    ensures db.Valid() && Untouched(old(db.pages), old(db.supply), db.pages, db.supply, db.xid)
    ensures !db.failed ==>
              && Follows(old(DeskOf(db.cur, db.place)), Set(e, replace), DeskOf(db.cur, db.place)) && Ready(db.o, db.cur, db.place, Then(m, Set(e, replace)))
              && Pages(db.View(), db.place.tree) == old(Pages(db.View(), db.place.tree))
    ensures Afforded(old(Levels(db.place.tree)), old(|db.supply|), Levels(db.place.tree), |db.supply|, db.failed, !Uncrowded(old(db.Contents()), db.o.leaf))
  {
    hide Standing;
    hide LowerBound;
    hide AtWindow;
    hide CopyOnWrite;
    hide Settable;
    hide SetDone;
    ghost var s, c, p := db.View(), db.cur, db.place;
    ReadySettable(s, c, p, m, e, replace);
    NextDesk(s, c, p);
    SetExcuse(s, c, p, m, Replacing(c, p, replace));
    CostBound(s, c, p, Replacing(c, p, replace));
    hide SetCost;
    hide Levels;
    hide Uncrowded;
    var rc := db.Set(e, replace);
    if !db.failed {
      SetDoneFacts(s, p, Pos(c, p), db.View(), db.cur, db.place, e, Replacing(c, p, replace));
      SetReady(s, p, Pos(c, p), db.View(), db.cur, db.place, e, Replacing(c, p, replace));
    }
  }

  /** ed_bpt_del. */
  method CallDel(db: Db, ghost m: Mode)
    requires db.Valid() && !db.failed && Ready(db.o, db.cur, db.place, m)
    modifies db
    ensures db.Valid() && Untouched(old(db.pages), old(db.supply), db.pages, db.supply, db.xid)
    ensures !db.failed ==>
              && Follows(old(DeskOf(db.cur, db.place)), Del, DeskOf(db.cur, db.place)) && Ready(db.o, db.cur, db.place, Then(m, Del))
              && Pages(db.View(), db.place.tree) == old(Pages(db.View(), db.place.tree))
    ensures Afforded(old(Levels(db.place.tree)), old(|db.supply|), Levels(db.place.tree), |db.supply|, db.failed, !old(DeskOf(db.cur, db.place)).on)
  {
    hide Standing;
    hide LowerBound;
    hide AtWindow;
    hide CopyOnWrite;
    hide DelDone;
    ghost var s, c, p := db.View(), db.cur, db.place;
    if c.hasfind {
      CostBound(s, c, p, false);
      LevelsOf(s, c, p);
    }
    hide DelCost;
    hide Levels;
    var rc, n := db.Del();
    if n == 1 {
      DelDoneFacts(s, c, p, db.View(), db.cur, db.place);
      LevelsOf(db.View(), db.cur, db.place);
      DelDesk(s, c, p, db.View(), db.cur, db.place, m);
    } else if !db.failed {
      NotTaken(db.o, c, p, m);
    }
  }

  /** Where a full leaf cannot be cut, too many entries have one key. */
  lemma {:induction false} SetExcuse(s: Txn, c: Cursor, p: Place, m: Mode, replacing: bool)
    requires Standing(s, c, p) && !s.failed && m.Searched? && Ready(s.o, c, p, m)
    ensures Full(p, s.o, replacing) && NoCut(c, p) ==> !Uncrowded(Entries(p.tree), s.o.leaf)
  {
    hide Standing;
    hide Uncrowded;
    hide NoCut;
    if Full(p, s.o, replacing) {
      FullOfOne(s, c, p, replacing);
      Crowded(s, c, p);
    }
  }

  lemma {:induction false} FindReady(s: Txn, c: Cursor, p: Place)
    requires Standing(s, c, p) && !s.failed && c.hasfind && c.key <= KEY_MAX && c.kmin <= c.key <= c.kmax
    requires LowerBound(Entries(p.tree), c.key, Pos(c, p)) && AtSearch(c, p) && AtWindow(c, p)
    requires c.matched == (if c.hasentry then 1 else 0) && !Stale(c, p)
    ensures Ready(s.o, c, p, Searched(c.key, false))
  {
    hide Standing;
    hide LowerBound;
    hide SortedEntries;
    hide AtSearch;
    hide Before;
    if p.tree.Some? {
      LeafAmong(s, c, p);
      ZipRange(s, c, p);
    }
  }

  lemma {:induction false} ZipRange(s: Txn, c: Cursor, p: Place)
    requires Standing(s, c, p) && !s.failed && c.hasfind && p.tree.Some? && AtWindow(c, p) && c.kmin <= c.key <= c.kmax
    ensures PathLow(p.fs) <= c.key <= PathHigh(p.fs)
  {
    hide Standing;
    hide PathLow;
    hide PathHigh;
    LeafAmong(s, c, p);
  }

  /** The cursor is on an entry exactly when it shows one that is there. */
  lemma {:induction false} NextDesk(s: Txn, c: Cursor, p: Place)
    requires Standing(s, c, p) && !s.failed
    ensures OnEntry(s, c, p) <==> DeskOf(c, p).on
    ensures c.hasfind ==> Pos(c, p) + (if DeskOf(c, p).on then 1 else 0) <= |Entries(p.tree)|
    ensures c.hasfind && p.tree.None? ==> Pos(c, p) == 0 && !c.hasentry && Entries(p.tree) == []
  {
    if c.hasfind && p.tree.Some? {
      LeafAmong(s, c, p);
    }
  }

  lemma {:induction false} DelDesk(s: Txn, c: Cursor, p: Place, t: Txn, d: Cursor, q: Place, m: Mode)
    requires DelDone(s, c, p, t, d, q) && !t.failed && c.hasfind && c.hasentry && p.tree.Some? && Ready(s.o, c, p, m) && t.o == s.o
    ensures !d.hasentry && d.hasfind && Pos(d, q) == Pos(c, p) && Ready(t.o, d, q, Then(m, Del))
  {
    hide Ready;
    if m.Searched? {
      DelReady(s, c, p, t, d, q, m);
    } else {
      LooseReady(t.o, d, q);
    }
  }

  lemma {:induction false} LooseReady(o: Orders, c: Cursor, p: Place)
    ensures Ready(o, c, p, Loose)
  {
  }

  lemma {:induction false} NotTaken(o: Orders, c: Cursor, p: Place, m: Mode)
    requires Ready(o, c, p, m)
    ensures Ready(o, c, p, Then(m, Del))
  {
  }

  method CallOne(db: Db, call: Call, ghost m: Mode)
    requires db.Valid() && !db.failed && Admits(m, call) && Ready(db.o, db.cur, db.place, m)
    modifies db
    ensures db.Valid() && Untouched(old(db.pages), old(db.supply), db.pages, db.supply, db.xid)
    ensures !db.failed ==>
              && Follows(old(DeskOf(db.cur, db.place)), call, DeskOf(db.cur, db.place)) && Ready(db.o, db.cur, db.place, Then(m, call))
              && Pages(db.View(), db.place.tree) == old(Pages(db.View(), db.place.tree))
    ensures Afforded(old(Levels(db.place.tree)), old(|db.supply|), Levels(db.place.tree), |db.supply|, db.failed, Excused(old(DeskOf(db.cur, db.place)), call, db.o))
  {
    hide Standing;
    hide Untouched;
    hide Follows;
    hide Ready;
    match call {
      case Find(k) => CallFind(db, k, m);
      case First => CallFirst(db, m);
      case Next(left) => CallNext(db, left, m);
      case Set(e, replace) => CallSet(db, e, replace, m);
      case Del => CallDel(db, m);
    }
  }

  lemma {:induction false} UntouchedTrans(a: map<nat, Page>, x: seq<nat>, b: map<nat, Page>, y: seq<nat>, c: map<nat, Page>, z: seq<nat>, xid: nat)
    requires Untouched(a, x, b, y, xid) && Untouched(b, y, c, z, xid)
    ensures Untouched(a, x, c, z, xid)
  {
    hide CopyOnWrite;
    CopyOnWriteTrans(a, b, c, xid);
  }

  /** Any run of calls, in which sets come where they may, is a run on the sorted list, call by call; it stops early only
      when a call fails. At every point no page of an older transaction is written, and no page is lost or used twice. */
  method Perform(db: Db, calls: seq<Call>) returns (done: nat, ghost trace: seq<Desk>)
    requires db.Valid() && !db.failed && Proper(Loose, calls)
    modifies db
    ensures db.Valid() && done <= |calls| && (done < |calls| <==> db.failed)
    ensures |trace| == done + 1 && trace[0] == old(DeskOf(db.cur, db.place))
    ensures forall i | 0 <= i < done :: Follows(trace[i], calls[i], trace[i + 1])
    ensures !db.failed ==> DeskOf(db.cur, db.place) == trace[done]
    ensures !db.failed ==> Pages(db.View(), db.place.tree) == old(Pages(db.View(), db.place.tree))
    ensures Untouched(old(db.pages), old(db.supply), db.pages, db.supply, db.xid)
    // with enough pages it stops only where a call is excused
    ensures |old(db.supply)| >= |calls| * (2 * (Levels(old(db.place.tree)) + |calls|) + 3) ==>
              done == |calls| || Excused(trace[done], calls[done], db.o)
  {
    hide Standing;
    hide Excused;
    hide Levels;
    hide Untouched;
    hide Follows;
    hide Ready;
    hide DeskOf;
    hide Pages;
    hide Admits;
    hide Then;
    done, trace := 0, [DeskOf(db.cur, db.place)];
    ghost var m, first, had := Loose, db.pages, db.supply;
    LooseReady(db.o, db.cur, db.place);
    NothingDone(db.View());
    assert calls[0..] == calls;
    ghost var most := 2 * (Levels(db.place.tree) + |calls|) + 3;
    while done < |calls|
      invariant Levels(db.place.tree) <= Levels(old(db.place.tree)) + done && |db.supply| + done * most >= |old(db.supply)|
      invariant db.Valid() && !db.failed && done <= |calls| && Proper(m, calls[done..]) && Ready(db.o, db.cur, db.place, m)
      invariant |trace| == done + 1 && trace[0] == old(DeskOf(db.cur, db.place)) && DeskOf(db.cur, db.place) == trace[done]
      invariant forall i | 0 <= i < done :: Follows(trace[i], calls[i], trace[i + 1])
      invariant Pages(db.View(), db.place.tree) == old(Pages(db.View(), db.place.tree))
      invariant Untouched(first, had, db.pages, db.supply, db.xid)
    {
      ghost var before, supply := db.pages, db.supply;
      Increase(done, |calls|, most);
      assert calls[done..][0] == calls[done] && calls[done..][1..] == calls[done + 1..];
      CallOne(db, calls[done], m);
      UntouchedTrans(first, had, before, supply, db.pages, db.supply, db.xid);
      if db.failed {
        return;
      }
      m := Then(m, calls[done]);
      trace, done := trace + [DeskOf(db.cur, db.place)], done + 1;
    }
  }

  lemma {:induction false} NothingDone(s: Txn)
    ensures Untouched(s.pages, s.supply, s.pages, s.supply, s.xid)
  {
  }
}
