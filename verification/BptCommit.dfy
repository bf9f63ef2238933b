/** Opening, committing and closing a write transaction on one tree (lib/txn.c): what a header's root leads to. */
module BptCommit {
  import opened BptTree
  import opened BptStore
  import opened BptEdit
  import opened BptWhole
  import opened Bpt
  import Protocol

  /** The published root, transaction and slab position. */
  datatype Header = Header(root: Option<nat>, xid: nat, vno: nat)

  /** The tree under the root is sound and stored in pages of published transactions. */
  ghost predicate Published(o: Orders, hdr: Header, pages: map<nat, Page>, tree: Option<Tree>) {
    && o.leaf >= 2 && o.branch >= 4
    && (forall p | p in pages :: pages[p].xid <= hdr.xid + 1)
    && (match tree
        case None => hdr.root == None
        case Some(t) =>
          && hdr.root == Some(t.no) && Stored(pages, t) && Older(t, hdr.xid + 1)
          && Sound(t, Height(t), 0, KEY_MAX, o) && Distinct(Bag(t)))
  }

  /** Pages to be handed out: each once, none of them in the tree. */
  ghost predicate Spare(supply: seq<nat>, tree: Option<Tree>) {
    Distinct(multiset(supply) + if tree.Some? then Bag(tree.value) else multiset{})
  }

  /** The pages but for those to be handed out, whose contents mean nothing. */
  function Known(pages: map<nat, Page>, supply: seq<nat>): map<nat, Page> {
    map p | p in pages && p !in supply :: pages[p]
  }

  lemma {:induction false} KnownStored(pages: map<nat, Page>, supply: seq<nat>, t: Tree)
    requires Stored(pages, t) && forall p | p in Bag(t) :: p !in supply
    ensures Stored(Known(pages, supply), t)
  {
    StoredKept(pages, Known(pages, supply), t);
  }

  lemma {:induction false} SpareApart(supply: seq<nat>, tree: Option<Tree>)
    requires Spare(supply, tree)
    ensures forall i, j | 0 <= i < j < |supply| :: supply[i] != supply[j]
    ensures tree.Some? ==> forall p | p in Bag(tree.value) :: p !in supply
  {
    var m := multiset(supply) + if tree.Some? then Bag(tree.value) else multiset{};
    forall i, j | 0 <= i < j < |supply| ensures supply[i] != supply[j] {
      TwiceIn(supply, i, j);
      assert m[supply[i]] <= 1;
    }
    if tree.Some? {
      forall p | p in Bag(tree.value) ensures p !in supply {
        assert m[p] <= 1;
        assert p in supply ==> multiset(supply)[p] > 0;
      }
    }
  }

  lemma {:induction false} TwiceIn(s: seq<nat>, i: nat, j: nat)
    requires i < j < |s|
    ensures s[i] == s[j] ==> multiset(s)[s[i]] >= 2
  {
    assert s == s[..i] + [s[i]] + s[i + 1..j] + [s[j]] + s[j + 1..];
  }

  /** What ed_txn_open finds. */
  lemma {:induction false} OpenRooted(o: Orders, hdr: Header, pages: map<nat, Page>, tree: Option<Tree>, supply: seq<nat>)
    requires Published(o, hdr, pages, tree) && Spare(supply, tree)
    ensures Rooted(Txn(o, hdr.xid + 1, Known(pages, supply), supply, [], false, hdr.root, []), tree)
  {
    hide Sound;
    hide Stored;
    var s := Txn(o, hdr.xid + 1, Known(pages, supply), supply, [], false, hdr.root, []);
    SpareApart(supply, tree);
    if tree.Some? {
      KnownStored(pages, supply, tree.value);
    }
    assert Pages(s, tree) == multiset(supply) + if tree.Some? then Bag(tree.value) else multiset{};
  }

  /** Every page of a stored tree belongs to a transaction up to this one. */
  lemma {:induction false} StoredOlder(pages: map<nat, Page>, t: Tree, xid: nat)
    requires Stored(pages, t) && forall p | p in pages :: pages[p].xid <= xid
    ensures Older(t, xid + 1)
    decreases t
  {
    if t.TBranch? {
      forall i | 0 <= i < |t.kids| ensures Older(t.kids[i], xid + 1) {
        StoredOlder(pages, t.kids[i], xid);
      }
    }
  }

  lemma {:induction false} RootedPublished(s: Txn, tree: Option<Tree>, vno: nat)
    requires Rooted(s, tree)
    ensures Published(s.o, Header(s.root, s.xid, vno), s.pages, tree)
  {
    hide Sound;
    if tree.Some? {
      StoredOlder(s.pages, tree.value, s.xid);
      forall p ensures Bag(tree.value)[p] <= 1 {
        assert Pages(s, tree)[p] <= 1;
      }
    }
  }

  function SetOf(m: multiset<nat>): set<nat> {
    set p | p in m
  }

  /** The pages of the new tree are those of the old one that were not discarded and those taken from the supply. */
  lemma {:induction false} NewPages(a: multiset<nat>, supply: multiset<nat>, b: multiset<nat>, left: multiset<nat>, gc: multiset<nat>)
    requires Distinct(a + supply) && b + (left + gc) == a + supply && forall p | p in left :: p in supply
    ensures SetOf(b) == (SetOf(a) - SetOf(gc)) + (SetOf(supply) - SetOf(left) - SetOf(gc)) && SetOf(gc) <= SetOf(a) + SetOf(supply)
  {
    forall p: nat | p in gc ensures p in a || p in supply {
      assert (b + (left + gc))[p] == (a + supply)[p];
    }
    forall p: nat ensures p in b <==> (p in a && p !in gc) || (p in supply && p !in left && p !in gc) {
      assert (b + (left + gc))[p] == (a + supply)[p] <= 1;
    }
  }

  /** The index file as other processes see it. */
  class Index {
    const o: Orders
    var hdr: Header
    var pages: map<nat, Page>
    /** What the header's root leads to. */
    ghost var tree: Option<Tree>

    ghost predicate Valid()
      reads this
    {
      Published(o, hdr, pages, tree)
    }

    ghost function Contents(): seq<Entry>
      reads this
    {
      Entries(tree)
    }

    /** An open transaction: it may have gone wrong, but the published tree is still there page for page. */
    ghost predicate Editing(db: Db)
      reads this, db
    {
      && db.Valid() && db.o == o && db.xid == hdr.xid + 1
      && (tree.Some? ==> Stored(db.pages, tree.value) && Older(tree.value, db.xid))
    }

    /** ed_txn_open: the next transaction, on the published tree. */
    method Open(supply: seq<nat>) returns (db: Db)
      requires Valid() && Spare(supply, tree)
      ensures fresh(db) && Editing(db) && !db.failed && db.place.tree == tree && db.supply == supply && db.gc == []
    {
      hide Sound;
      hide Stored;
      hide Known;
      hide Distinct;
      OpenRooted(o, hdr, pages, tree, supply);
      db := new Db(Txn(o, hdr.xid + 1, Known(pages, supply), supply, [], false, hdr.root, []), tree);
    }

    /** ed_txn_commit: refused once an edit has failed; otherwise root, transaction and position are published. */
    method Commit(db: Db, vno: nat) returns (ok: bool)
      requires Valid() && Editing(db)
      modifies this
      ensures Valid() && ok == !db.failed && pages == db.pages
      ensures ok ==> hdr == Header(db.root, db.xid, vno) && tree == db.place.tree && Contents() == db.Contents()
      ensures !ok ==> hdr == old(hdr) && tree == old(tree)
      ensures old(tree).Some? ==> Stored(pages, old(tree).value)
    {
      hide Sound;
      hide Stored;
      hide Distinct;
      hide Older;
      if db.failed {
        Close(db);
        return false;
      }
      RootedPublished(db.View(), db.place.tree, vno);
      hdr, pages, tree := Header(db.root, db.xid, vno), db.pages, db.place.tree;
      ok := true;
    }

    /** ed_txn_close without a commit: the header is left alone. */
    method Close(db: Db)
      requires Valid() && Editing(db)
      modifies `pages
      ensures Valid() && pages == db.pages
      ensures tree.Some? ==> Stored(pages, tree.value)
    {
      hide Sound;
      hide Stored;
      hide Distinct;
      hide Older;
      pages := db.pages;
    }

    /** A whole transaction: any edits, then a commit or not. Only a commit after edits that all succeeded is seen;
        otherwise root, transaction, position and contents are those at open. In no case is a page of the tree
        that was published written, so its root still leads to its contents. */
    method Transact(ops: seq<Op>, vno: nat, supply: seq<nat>, commit: bool) returns (ok: bool, done: nat, ghost gone: set<nat>, ghost used: set<nat>)
      requires Valid() && Spare(supply, tree) && forall op | op in ops :: op.Key() <= KEY_MAX
      modifies this
      ensures Valid() && (ok <==> commit && done == |ops|)
      ensures ok ==> hdr.xid == old(hdr.xid) + 1 && hdr.vno == vno && Contents() == ApplyAll(old(Contents()), ops)
      ensures !ok ==> hdr == old(hdr) && tree == old(tree) && Contents() == old(Contents())
      // it goes through with enough pages and no key as often as a leaf is full
      ensures (&& commit && |supply| >= |ops| * (2 * (Levels(old(tree)) + |ops|) + 3)
               && forall i | 0 <= i < |ops| :: Uncrowded(ApplyAll(old(Contents()), ops[..i]), o.leaf)) ==> ok
      ensures old(tree).Some? ==> Stored(pages, old(tree).value) && forall p | p in Bag(old(tree).value) :: p in old(pages) && p in pages && pages[p] == old(pages)[p]
      ensures ok ==> Recounted(TreePages(old(tree)), SetOf(multiset(supply)), TreePages(tree), gone, used)
    {
      hide Sound;
      hide Stored;
      hide Distinct;
      hide Older;
      hide Spare;
      hide Pages;
      hide NoneAdded;
      hide SetOf;
      hide TreePages;
      hide CopyOnWrite;
      hide Bag;
      hide Flatten;
      hide ApplyAll;
      hide Uncrowded;
      hide Levels;
      gone, used := {}, {};
      ghost var was, file := tree, pages;
      var db := Open(supply);
      ghost var start, s := db.pages, db.View();
      done := db.Run(ops);
      if was.Some? {
        SnapshotKept(start, db.pages, db.xid, was.value);
      }
      if commit {
        ok := Commit(db, vno);
        if ok {
          gone, used := SetOf(multiset(db.gc)), SetOf(multiset(supply)) - SetOf(multiset(db.supply)) - SetOf(multiset(db.gc));
          Accounted(s, was, db.View(), db.place.tree);
        }
      } else {
        Close(db);
        ok := false;
      }
      if was.Some? {
        SamePages(file, pages, was.value);
      }
    }
  }

  ghost function TreePages(tree: Option<Tree>): set<nat> {
    if tree.Some? then SetOf(Bag(tree.value)) else {}
  }

  /** A commit turned the pages `was` of a tree into `now`: without those `gone`, with those `used` of the supply. */
  predicate Recounted(was: set<nat>, supply: set<nat>, now: set<nat>, gone: set<nat>, used: set<nat>) {
    now == (was - gone) + used && gone <= was + supply && used <= supply
  }

  /** Two trees so committed, with pages of their own, are what the writer's last step before publishing must have. */
  lemma {:induction false} Publishable(s: Protocol.State, w: Protocol.Writer, supply: set<nat>, first: set<nat>, gone: set<nat>, used: set<nat>,
                                       spare: set<nat>, second: set<nat>, lost: set<nat>, taken: set<nat>)
    requires s.versions != [] && w.phase == Protocol.Flushed && Protocol.Dates(s) && supply !! spare
    requires supply + spare !! Protocol.Tree(s)
    requires Recounted(Protocol.Current(s).first, supply, first, gone, used)
    requires Recounted(Protocol.Current(s).second, spare, second, lost, taken)
    requires w.gone == (gone + lost) * Protocol.Tree(s) && w.used == used + taken
    ensures Protocol.CanPublishRoots(s, w, first, second)
  {
    assert first + second == (Protocol.Tree(s) - w.gone) + w.used;
  }

  lemma {:induction false} NoPages()
    ensures SetOf(multiset{}) == {}
  {
  }

  lemma {:induction false} Accounted(s: Txn, was: Option<Tree>, t: Txn, now: Option<Tree>)
    requires Spare(s.supply, was) && s.gc == [] && NoneAdded(s.supply, t.supply) && Pages(t, now) == Pages(s, was)
    ensures TreePages(now) == (TreePages(was) - SetOf(multiset(t.gc))) + (SetOf(multiset(s.supply)) - SetOf(multiset(t.supply)) - SetOf(multiset(t.gc)))
    ensures SetOf(multiset(t.gc)) <= TreePages(was) + SetOf(multiset(s.supply))
  {
    hide SetOf;
    hide Bag;
    NoPages();
    var a := if was.Some? then Bag(was.value) else multiset{};
    var b := if now.Some? then Bag(now.value) else multiset{};
    assert a + multiset(s.supply) == multiset(s.supply) + a;
    assert multiset(s.supply) + multiset(s.gc) == multiset(s.supply);
    forall p: nat | p in multiset(t.supply) ensures p in multiset(s.supply) {
      assert p in t.supply && p in s.supply;
    }
    NewPages(a, multiset(s.supply), b, multiset(t.supply), multiset(t.gc));
  }

  /** Two stores of one tree agree on its pages. */
  lemma {:induction false} SamePages(a: map<nat, Page>, b: map<nat, Page>, t: Tree)
    requires Stored(a, t) && Stored(b, t)
    ensures forall p | p in Bag(t) :: p in a && p in b && b[p] == a[p]
    decreases t, 1
  {
    if t.TBranch? {
      SamePagesAll(a, b, t.kids);
    }
  }

  lemma {:induction false} SamePagesAll(a: map<nat, Page>, b: map<nat, Page>, ts: seq<Tree>)
    requires StoredAll(a, ts) && StoredAll(b, ts)
    ensures forall p | p in BagAll(ts) :: p in a && p in b && b[p] == a[p]
    decreases ts, 0
  {
    if ts != [] {
      SamePages(a, b, ts[0]);
      SamePagesAll(a, b, ts[1..]);
    }
  }
}
