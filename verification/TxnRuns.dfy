/** Whole transactions as runs of the protocol's steps: a commit that goes through, a reader that then sees it, and what
    follows a crash. */
module TxnRuns {
  import opened Protocol
  import opened AllocSteps
  import opened Alloc

  /** The writer of `s` in another state of its own, of the chain and of the lists. */
  function With(s: State, w: Writer): State {
    s.(writer := Some(w))
  }

  function Put(free: map<nat, nat>, x: set<nat>, xid: nat): map<nat, nat> {
    map p | p in free.Keys + x :: if p in x then xid else free[p]
  }

  lemma {:induction false} PutOne(free: map<nat, nat>, x: set<nat>, xid: nat, p: nat)
    requires p in x
    ensures Put(free[p := xid], x - {p}, xid) == Put(free, x, xid)
  {
    assert (free[p := xid]).Keys + (x - {p}) == free.Keys + x;
  }

  lemma {:induction false} PutNone(free: map<nat, nat>, xid: nat)
    ensures Put(free, {}, xid) == free
  {
  }

  lemma {:induction false} ListOne(s: State, w: Writer, xid: nat, p: nat)
    requires s.writer == Some(w) && s.stale == {} && Busy(w) && xid >= w.tag && p in w.freeing
    ensures Enabled(s, ByAlloc(List(p, xid)))
    ensures Apply(s, ByAlloc(List(p, xid))) == With(s.(free := s.free[p := xid]), w.(freeing := w.freeing - {p}))
  {
  }

  /** All pages to be freed can be listed, one after the other. */
  lemma {:induction false} ListAll(s: State, w: Writer, xid: nat) returns (acts: seq<Action>)
    requires s.writer == Some(w) && s.stale == {} && Busy(w) && xid >= w.tag
    ensures Possible(s, acts) && After(s, acts) == With(s.(free := Put(s.free, w.freeing, xid)), w.(freeing := {}))
    decreases |w.freeing|
  {
    hide Enabled;
    hide Apply;
    hide Put;
    PutNone(s.free, xid);
    if w.freeing == {} {
      return [];
    }
    var p :| p in w.freeing;
    var a, v := ByAlloc(List(p, xid)), w.(freeing := w.freeing - {p});
    ListOne(s, w, xid, p);
    var rest := ListAll(With(s.(free := s.free[p := xid]), v), v, xid);
    RunOne(s, a);
    RunAppend(s, [a], rest);
    PutOne(s.free, w.freeing, xid, p);
    acts := [a] + rest;
  }

  lemma {:induction false} UseAll(s: State, w: Writer, x: set<nat>) returns (acts: seq<Action>)
    requires s.writer == Some(w) && s.stale == {} && w.phase == Open && x <= w.pg
    ensures Possible(s, acts) && After(s, acts) == With(s, w.(used := w.used + x))
    decreases |x|
  {
    if x == {} {
      assert w.used + x == w.used;
      return [];
    }
    var p :| p in x;
    var a, v := ByTxn(Use(p)), w.(used := w.used + {p});
    assert Enabled(s, a) && Apply(s, a) == With(s, v);
    var rest := UseAll(With(s, v), v, x - {p});
    RunOne(s, a);
    RunAppend(s, [a], rest);
    assert w.used + {p} + (x - {p}) == w.used + x;
    acts := [a] + rest;
  }

  lemma {:induction false} DiscardAll(s: State, w: Writer, x: set<nat>) returns (acts: seq<Action>)
    requires s.writer == Some(w) && s.stale == {} && w.phase == Open && s.versions != [] && x <= Tree(s)
    ensures Possible(s, acts) && After(s, acts) == With(s, w.(gone := w.gone + x))
    decreases |x|
  {
    if x == {} {
      assert w.gone + x == w.gone;
      return [];
    }
    var p :| p in x;
    var a, v := ByTxn(Discard(p)), w.(gone := w.gone + {p});
    assert Enabled(s, a) && Apply(s, a) == With(s, v);
    var rest := DiscardAll(With(s, v), v, x - {p});
    RunOne(s, a);
    RunAppend(s, [a], rest);
    assert w.gone + {p} + (x - {p}) == w.gone + x;
    acts := [a] + rest;
  }

  /** Every slot can be scanned. */
  lemma {:induction false} ScanAll(s: State, w: Writer, x: set<nat>) returns (acts: seq<Action>, xmin: int)
    requires s.writer == Some(w) && s.stale == {} && Busy(w) && w.taken == {} && w.grown == {} && w.xmin < s.hdrXid && x <= s.conns.Keys
    ensures Possible(s, acts) && After(s, acts) == With(s, w.(scanned := w.scanned + x, xmin := xmin))
    decreases |x|
  {
    if x == {} {
      assert w.scanned + x == w.scanned;
      return [], w.xmin;
    }
    var c :| c in x;
    var a := ByAlloc(ScanSlot(c));
    assert Enabled(s, a);
    var v := Apply(s, a).writer.value;
    assert Apply(s, a) == With(s, v) && v == w.(scanned := w.scanned + {c}, xmin := v.xmin) && v.xmin < s.hdrXid;
    var rest;
    rest, xmin := ScanAll(With(s, v), v, x - {c});
    RunOne(s, a);
    RunAppend(s, [a], rest);
    assert w.scanned + {c} + (x - {c}) == w.scanned + x;
    acts := [a] + rest;
  }

  // ---- opening

  /** What ed_txn_open leaves: pages of an abandoned transaction and what the slot listed as pending are free under no
      transaction, unless the connection's own transaction object still has them; then these are its pages. */
  function Opened(s: State, c: nat): State
    requires c in s.conns
  {
    var x := s.conns[c];
    s.(free := Put(Put(s.free, s.active, 0), if x.kept == {} then x.pending else {}, 0), active := x.kept,
       conns := s.conns[c := x.(pending := {}, kept := {})],
       writer := Some(Writer(c, s.hdrXid + 1, Open, x.kept, {}, {}, {}, 0, {}, {}, {}, {}, 0)))
  }

  lemma {:induction false} OpenRuns(s: State, c: nat) returns (acts: seq<Action>)
    requires s.writer.None? && s.stale == {} && c in s.conns && s.conns[c].live
    ensures Possible(s, acts) && After(s, acts) == Opened(s, c)
  {
    hide Possible;
    hide After;
    hide Put;
    var x, w := s.conns[c], Writer(c, s.hdrXid + 1, Locked, {}, {}, {}, {}, 0, {}, {}, {}, {}, 0);
    var s0 := With(s, w);
    LockRun(s, c);
    var w1 := w.(phase := ActiveCleared, freeing := s.active);
    var s1 := With(s0.(active := {}), w1);
    ClearRun(s0, w);
    var l1 := ListAll(s1, w1, 0);
    var s2 := With(s1.(free := Put(s.free, s.active, 0)), w.(phase := ActiveCleared));
    RunAppend(s, [ByConn(Lock(c))], [ByTxn(ClearActive)]);
    RunAppend(s, [ByConn(Lock(c))] + [ByTxn(ClearActive)], l1);
    var w3 := w.(phase := PendingCleared, pg := x.kept, freeing := if x.kept == {} then x.pending else {});
    var s3 := With(s2.(conns := s.conns[c := x.(pending := {}, kept := {})]), w3);
    PendingRun(s2, w.(phase := ActiveCleared));
    var a3 := [ByConn(Lock(c))] + [ByTxn(ClearActive)] + l1;
    RunAppend(s, a3, [ByTxn(ClearPending)]);
    var l3 := ListAll(s3, w3, 0);
    RunAppend(s, a3 + [ByTxn(ClearPending)], l3);
    var w4 := w3.(freeing := {});
    var s4 := With(s3.(free := Put(s2.free, w3.freeing, 0)), w4);
    ActiveRun(s4, w4);
    RunAppend(s, a3 + [ByTxn(ClearPending)] + l3, [ByTxn(SetActive(w4.pg))]);
    acts := a3 + [ByTxn(ClearPending)] + l3 + [ByTxn(SetActive(w4.pg))];
  }

  lemma {:induction false} LockRun(s: State, c: nat)
    requires s.writer.None? && c in s.conns && s.conns[c].live
    ensures Possible(s, [ByConn(Lock(c))])
    ensures After(s, [ByConn(Lock(c))]) == With(s, Writer(c, s.hdrXid + 1, Locked, {}, {}, {}, {}, 0, {}, {}, {}, {}, 0))
  {
    RunOne(s, ByConn(Lock(c)));
  }

  lemma {:induction false} ClearRun(s: State, w: Writer)
    requires s.writer == Some(w) && s.stale == {} && w.phase == Locked && Idle(w)
    ensures Possible(s, [ByTxn(ClearActive)])
    ensures After(s, [ByTxn(ClearActive)]) == With(s.(active := {}), w.(phase := ActiveCleared, freeing := s.active, tag := 0))
  {
    RunOne(s, ByTxn(ClearActive));
  }

  lemma {:induction false} PendingRun(s: State, w: Writer)
    requires s.writer == Some(w) && s.stale == {} && w.phase == ActiveCleared && Idle(w) && w.conn in s.conns
    ensures Possible(s, [ByTxn(ClearPending)])
    ensures var x := s.conns[w.conn];
            After(s, [ByTxn(ClearPending)]) ==
            With(s.(conns := s.conns[w.conn := x.(pending := {}, kept := {})]),
                 w.(phase := PendingCleared, pg := x.kept, freeing := if x.kept == {} then x.pending else {}, tag := 0))
  {
    RunOne(s, ByTxn(ClearPending));
  }

  lemma {:induction false} ActiveRun(s: State, w: Writer)
    requires s.writer == Some(w) && s.stale == {} && w.phase == PendingCleared && Idle(w)
    ensures Possible(s, [ByTxn(SetActive(w.pg))])
    ensures After(s, [ByTxn(SetActive(w.pg))]) == With(s.(active := w.pg), w.(phase := Open))
  {
    RunOne(s, ByTxn(SetActive(w.pg)));
  }

  // ---- editing

  lemma {:induction false} ScanRun(s: State, w: Writer) returns (acts: seq<Action>, xmin: int)
    requires s.writer == Some(w) && s.stale == {} && Busy(w) && w.taken == {} && w.grown == {}
    ensures Possible(s, acts) && After(s, acts) == With(s, w.(scanned := s.conns.Keys, xmin := xmin))
  {
    var a, v := ByAlloc(StartScan), w.(scanned := {}, xmin := s.hdrXid - 1);
    assert Enabled(s, a) && Apply(s, a) == With(s, v);
    RunOne(s, a);
    var rest;
    rest, xmin := ScanAll(With(s, v), v, s.conns.Keys);
    RunAppend(s, [a], rest);
    assert {} + s.conns.Keys == s.conns.Keys;
    acts := [a] + rest;
  }

  lemma {:induction false} EndRun(s: State, w: Writer)
    requires s.writer == Some(w) && s.stale == {} && w.phase == Open && w.taken == {}
    ensures Possible(s, [ByAlloc(EndAlloc(false))])
    ensures After(s, [ByAlloc(EndAlloc(false))]) == With(s, w.(pg := w.pg + w.grown, grown := {}, scanned := {}))
  {
    RunOne(s, ByAlloc(EndAlloc(false)));
    assert (map p | p in s.free && p !in {} :: s.free[p]) == s.free && s.chain - {} == s.chain && {} + w.grown == w.grown;
  }

  lemma {:induction false} MarkRun(s: State, w: Writer, x: set<nat>)
    requires s.writer == Some(w) && s.stale == {} && w.phase == Open && x <= w.pg
    ensures Possible(s, [ByTxn(MarkActive(x))]) && After(s, [ByTxn(MarkActive(x))]) == s.(active := s.active + x)
  {
    RunOne(s, ByTxn(MarkActive(x)));
  }

  /** What edits leave that took `n` pages from the end of the file, put `used` into the new trees and did without `gone`. */
  function Edited(s: State, w: Writer, n: nat, used: set<nat>, gone: set<nat>, xmin: int): State {
    var more := Set(Range(s.tail, s.tail + n));
    With(s.(tail := s.tail + n, active := s.active + more), w.(pg := w.pg + more, used := used, gone := gone, scanned := {}, xmin := xmin))
  }

  lemma {:induction false} EditRuns(s: State, w: Writer, n: nat, used: set<nat>, gone: set<nat>) returns (acts: seq<Action>, xmin: int)
    requires s.writer == Some(w) && s.stale == {} && w.phase == Open && Idle(w) && w.used == {} && w.gone == {} && s.versions != []
    requires used <= w.pg + Set(Range(s.tail, s.tail + n)) && gone <= Tree(s)
    ensures Possible(s, acts) && After(s, acts) == Edited(s, w, n, used, gone, xmin)
  {
    hide Possible;
    hide After;
    hide Set;
    var more := Set(Range(s.tail, s.tail + n));
    var a1;
    a1, xmin := ScanRun(s, w);
    var w1 := w.(scanned := s.conns.Keys, xmin := xmin);
    var s1 := With(s, w1);
    GrowsRun(s1, n, xmin);
    RunAppend(s, a1, Grows(n));
    assert w1.taken + {} == {} && w1.grown + more == more;
    var w2 := w1.(grown := more);
    var s2 := With(s.(tail := s.tail + n), w2);
    assert Staged(s1, {}, more, s.tail + n) == s2;
    EndRun(s2, w2);
    RunAppend(s, a1 + Grows(n), [ByAlloc(EndAlloc(false))]);
    var w3 := w2.(pg := w.pg + more, grown := {}, scanned := {});
    var s3 := With(s2, w3);
    MarkRun(s3, w3, more);
    RunAppend(s, a1 + Grows(n) + [ByAlloc(EndAlloc(false))], [ByTxn(MarkActive(more))]);
    var s4 := s3.(active := s.active + more);
    var u := UseAll(s4, w3, used);
    assert {} + used == used && {} + gone == gone;
    var w5 := w3.(used := used);
    RunAppend(s, a1 + Grows(n) + [ByAlloc(EndAlloc(false))] + [ByTxn(MarkActive(more))], u);
    var d := DiscardAll(With(s4, w5), w5, gone);
    RunAppend(s, a1 + Grows(n) + [ByAlloc(EndAlloc(false))] + [ByTxn(MarkActive(more))] + u, d);
    acts := a1 + Grows(n) + [ByAlloc(EndAlloc(false))] + [ByTxn(MarkActive(more))] + u + d;
  }

  // ---- committing and closing

  lemma {:induction false} FlushRun(s: State, w: Writer)
    requires s.writer == Some(w) && s.stale == {} && w.phase == Open && Idle(w)
    ensures Possible(s, [ByTxn(Flush)]) && After(s, [ByTxn(Flush)]) == With(s.(active := {}), w.(phase := Flushed, pg := w.pg - w.used))
  {
    RunOne(s, ByTxn(Flush));
  }

  lemma {:induction false} RootsRun(s: State, w: Writer, x: set<nat>, y: set<nat>)
    requires s.writer == Some(w) && s.stale == {} && w.phase == Flushed && s.versions != [] && x !! y && x + y == (Tree(s) - w.gone) + w.used
    ensures Possible(s, [ByTxn(PublishRoots(x, y))])
    ensures After(s, [ByTxn(PublishRoots(x, y))]) ==
            With(s.(versions := s.versions + [Version(w.xid, x, y)]),
                 w.(phase := Rooted, used := {}, gone := {}, freeing := w.gone, tag := w.xid))
  {
    RunOne(s, ByTxn(PublishRoots(x, y)));
  }

  lemma {:induction false} XidRun(s: State, w: Writer)
    requires s.writer == Some(w) && s.stale == {} && w.phase == Rooted
    ensures Possible(s, [ByTxn(PublishXid)]) && After(s, [ByTxn(PublishXid)]) == With(s.(hdrXid := w.xid), w.(phase := Dated))
  {
    RunOne(s, ByTxn(PublishXid));
  }

  lemma {:induction false} FreedRun(s: State, w: Writer)
    requires s.writer == Some(w) && s.stale == {} && w.phase == Dated && Idle(w)
    ensures Possible(s, [ByTxn(TxnStep.Freed)]) && After(s, [ByTxn(TxnStep.Freed)]) == With(s.(active := {}), w.(phase := Closing))
  {
    RunOne(s, ByTxn(TxnStep.Freed));
  }

  lemma {:induction false} KeepRun(s: State, w: Writer, k: set<nat>)
    requires s.writer == Some(w) && s.stale == {} && w.phase == Closing && Idle(w) && w.conn in s.conns && k <= w.pg
    ensures Possible(s, [ByTxn(Keep(k))])
    ensures After(s, [ByTxn(Keep(k))]) ==
            With(s.(conns := s.conns[w.conn := s.conns[w.conn].(pending := k, kept := k)]),
                 w.(phase := Returning, pg := {}, freeing := w.pg - k, tag := 0))
  {
    RunOne(s, ByTxn(Keep(k)));
  }

  lemma {:induction false} UnlockRun(s: State, w: Writer)
    requires s.writer == Some(w) && s.stale == {} && w.phase in {Returning, Locked} && Idle(w)
    ensures Possible(s, [ByTxn(Unlock)]) && After(s, [ByTxn(Unlock)]) == s.(writer := None)
  {
    RunOne(s, ByTxn(Unlock));
  }

  /** The state once a commit is closed: the new version and its xid, what was discarded free under it, what was not
      used free under none, and the lock given up. */
  function Committed(s: State, w: Writer, x: set<nat>, y: set<nat>): State
    requires w.conn in s.conns
  {
    s.(hdrXid := w.xid, versions := s.versions + [Version(w.xid, x, y)],
       free := Put(Put(s.free, w.gone, w.xid), w.pg - w.used, 0), active := {},
       conns := s.conns[w.conn := s.conns[w.conn].(pending := {}, kept := {})], writer := None)
  }

  lemma {:induction false} CloseRuns(s: State, w: Writer, x: set<nat>, y: set<nat>) returns (acts: seq<Action>)
    requires s.writer == Some(w) && s.stale == {} && w.phase == Open && Idle(w) && w.conn in s.conns && s.versions != []
    requires x !! y && x + y == (Tree(s) - w.gone) + w.used
    ensures Possible(s, acts) && After(s, acts) == Committed(s, w, x, y)
  {
    hide Possible;
    hide After;
    hide Put;
    FlushRun(s, w);
    var w1 := w.(phase := Flushed, pg := w.pg - w.used);
    var s1 := With(s.(active := {}), w1);
    RootsRun(s1, w1, x, y);
    RunAppend(s, [ByTxn(Flush)], [ByTxn(PublishRoots(x, y))]);
    var w2 := w1.(phase := Rooted, used := {}, gone := {}, freeing := w.gone, tag := w.xid);
    var s2 := With(s1.(versions := s.versions + [Version(w.xid, x, y)]), w2);
    XidRun(s2, w2);
    var a := [ByTxn(Flush)] + [ByTxn(PublishRoots(x, y))];
    RunAppend(s, a, [ByTxn(PublishXid)]);
    var w3 := w2.(phase := Dated);
    var s3 := With(s2.(hdrXid := w.xid), w3);
    var l := ListAll(s3, w3, w.xid);
    RunAppend(s, a + [ByTxn(PublishXid)], l);
    var b := a + [ByTxn(PublishXid)] + l;
    var w4 := w3.(freeing := {});
    var s4 := With(s3.(free := Put(s.free, w.gone, w.xid)), w4);
    FreedRun(s4, w4);
    RunAppend(s, b, [ByTxn(TxnStep.Freed)]);
    var w5 := w4.(phase := Closing);
    var s5 := With(s4, w5);
    KeepRun(s5, w5, {});
    assert w1.pg - {} == w1.pg;
    RunAppend(s, b + [ByTxn(TxnStep.Freed)], [ByTxn(Keep({}))]);
    var w6 := w5.(phase := Returning, pg := {}, freeing := w1.pg, tag := 0);
    var s6 := With(s5.(conns := s.conns[w.conn := s.conns[w.conn].(pending := {}, kept := {})]), w6);
    var m := ListAll(s6, w6, 0);
    var d := b + [ByTxn(TxnStep.Freed)] + [ByTxn(Keep({}))];
    RunAppend(s, d, m);
    var w7 := w6.(freeing := {});
    UnlockRun(With(s6.(free := Put(s4.free, w1.pg, 0)), w7), w7);
    RunAppend(s, d + m, [ByTxn(Unlock)]);
    acts := d + m + [ByTxn(Unlock)];
  }

  /** From every state without a writer a live connection can run a whole transaction that takes `n` new pages, uses
      some of its pages in the new trees `x` and `y`, does without `gone`, and commits. */
  lemma {:induction false} CommitRuns(s: State, c: nat, n: nat, used: set<nat>, gone: set<nat>, x: set<nat>, y: set<nat>)
    returns (acts: seq<Action>)
    requires Inv(s) && s.writer.None? && s.stale == {} && c in s.conns && s.conns[c].live && s.versions != []
    requires used <= s.conns[c].kept + Set(Range(s.tail, s.tail + n)) && gone <= Tree(s)
    requires x !! y && x + y == (Tree(s) - gone) + used
    ensures Possible(s, acts)
    ensures var t, k := After(s, acts), s.conns[c];
            && t.writer == None && t.hdrXid == s.hdrXid + 1 && t.versions == s.versions + [Version(s.hdrXid + 1, x, y)]
            && t.active == {} && t.tail == s.tail + n && t.chain == s.chain && t.stale == {}
            && t.conns == s.conns[c := k.(pending := {}, kept := {})]
            && (forall p | p in gone && p !in k.kept && p < s.tail :: p in t.free && t.free[p] == s.hdrXid + 1)
            && (forall p | p in s.active || p in k.pending + Set(Range(s.tail, s.tail + n)) :: p in used || p in t.free)
  {
    hide Possible;
    hide After;
    var a := OpenRuns(s, c);
    var o := Opened(s, c);
    var w := o.writer.value;
    var b, xmin := EditRuns(o, w, n, used, gone);
    RunAppend(s, a, b);
    var e := Edited(o, w, n, used, gone, xmin);
    var d := CloseRuns(e, e.writer.value, x, y);
    RunAppend(s, a + b, d);
    acts := a + b + d;
    assert SlotOk(s, s.conns[c]);
    FreedAll(s, c, n, used, gone, x, y, xmin);
  }

  lemma {:induction false} FreedAll(s: State, c: nat, n: nat, used: set<nat>, gone: set<nat>, x: set<nat>, y: set<nat>, xmin: int)
    requires c in s.conns && (s.conns[c].kept == {} || s.conns[c].kept == s.conns[c].pending)
    ensures var o, k := Opened(s, c), s.conns[c];
            var e := Edited(o, o.writer.value, n, used, gone, xmin);
            var t := Committed(e, e.writer.value, x, y);
            && (forall p | p in gone && p !in k.kept && p < s.tail :: p in t.free && t.free[p] == s.hdrXid + 1)
            && (forall p | p in s.active || p in k.pending + Set(Range(s.tail, s.tail + n)) :: p in used || p in t.free)
            && t.conns == s.conns[c := k.(pending := {}, kept := {})]
  {
  }

  lemma {:induction false} CancelRun(s: State, w: Writer)
    requires s.writer == Some(w) && s.stale == {} && w.phase == Open && Idle(w)
    ensures Possible(s, [ByTxn(Cancel)]) && After(s, [ByTxn(Cancel)]) == With(s.(active := {}), w.(phase := Closing, used := {}, gone := {}))
  {
    RunOne(s, ByTxn(Cancel));
  }

  /** Closed without a commit, a transaction leaves header and versions as they were, lists `k` of its pages as pending and
      frees the others. */
  lemma {:induction false} CancelRuns(s: State, w: Writer, k: set<nat>) returns (acts: seq<Action>)
    requires s.writer == Some(w) && s.stale == {} && w.phase == Open && Idle(w) && w.conn in s.conns && k <= w.pg
    ensures Possible(s, acts)
    ensures After(s, acts) ==
            s.(free := Put(s.free, w.pg - k, 0), active := {}, conns := s.conns[w.conn := s.conns[w.conn].(pending := k, kept := k)], writer := None)
  {
    hide Possible;
    hide After;
    hide Put;
    CancelRun(s, w);
    var w1 := w.(phase := Closing, used := {}, gone := {});
    var s1 := With(s.(active := {}), w1);
    KeepRun(s1, w1, k);
    RunAppend(s, [ByTxn(Cancel)], [ByTxn(Keep(k))]);
    acts := ReturnRuns(s, [ByTxn(Cancel)] + [ByTxn(Keep(k))], w1.(phase := Returning, pg := {}, freeing := w.pg - k, tag := 0));
  }

  /** The rest of a close: what is left is listed, and the lock given up. */
  lemma {:induction false} ReturnRuns(s: State, a: seq<Action>, w: Writer) returns (acts: seq<Action>)
    requires Possible(s, a) && After(s, a).writer == Some(w) && After(s, a).stale == {}
    requires w.phase == Returning && w.tag == 0 && Idle(w.(freeing := {}))
    ensures Possible(s, acts) && After(s, acts) == After(s, a).(free := Put(After(s, a).free, w.freeing, 0), writer := None)
  {
    hide Possible;
    hide After;
    hide Put;
    var t := After(s, a);
    var m := ListAll(t, w, 0);
    RunAppend(s, a, m);
    var v := w.(freeing := {});
    UnlockRun(With(t.(free := Put(t.free, w.freeing, 0)), v), v);
    RunAppend(s, a + m, [ByTxn(Unlock)]);
    acts := a + m + [ByTxn(Unlock)];
  }

  lemma {:induction false} DrainRun(s: State, w: Writer)
    requires s.writer == Some(w) && s.stale == {} && w.phase == Locked && Idle(w) && w.conn in s.conns && s.conns[w.conn].kept != {}
    ensures Possible(s, [ByTxn(ReadFlush)]) && After(s, [ByTxn(ReadFlush)]) == With(s.(active := {}), w.(phase := Draining))
  {
    RunOne(s, ByTxn(ReadFlush));
  }

  lemma {:induction false} ReadKeepRun(s: State, w: Writer, k: set<nat>)
    requires s.writer == Some(w) && s.stale == {} && w.phase == Draining && Idle(w) && w.conn in s.conns && k <= s.conns[w.conn].kept
    ensures Possible(s, [ByTxn(ReadKeep(k))])
    ensures After(s, [ByTxn(ReadKeep(k))]) ==
            With(s.(conns := s.conns[w.conn := s.conns[w.conn].(pending := k, kept := k)]),
                 w.(phase := Returning, freeing := s.conns[w.conn].kept - k, tag := 0))
  {
    RunOne(s, ByTxn(ReadKeep(k)));
  }

  /** A connection that only read and has pages left can close: it keeps `k` of them as pending and frees the others. */
  lemma {:induction false} ReadCloses(s: State, c: nat, k: set<nat>) returns (acts: seq<Action>)
    requires s.writer.None? && s.stale == {} && c in s.conns && s.conns[c].live && s.conns[c].kept != {} && k <= s.conns[c].kept
    ensures Possible(s, acts)
    ensures After(s, acts) ==
            s.(free := Put(s.free, s.conns[c].kept - k, 0), active := {}, conns := s.conns[c := s.conns[c].(pending := k, kept := k)])
  {
    hide Possible;
    hide After;
    hide Put;
    LockRun(s, c);
    var w := Writer(c, s.hdrXid + 1, Locked, {}, {}, {}, {}, 0, {}, {}, {}, {}, 0);
    DrainRun(With(s, w), w);
    RunAppend(s, [ByConn(Lock(c))], [ByTxn(ReadFlush)]);
    var w1 := w.(phase := Draining);
    ReadKeepRun(With(s.(active := {}), w1), w1, k);
    RunAppend(s, [ByConn(Lock(c))] + [ByTxn(ReadFlush)], [ByTxn(ReadKeep(k))]);
    acts := ReturnRuns(s, [ByConn(Lock(c))] + [ByTxn(ReadFlush)] + [ByTxn(ReadKeep(k))],
                       w1.(phase := Returning, freeing := s.conns[c].kept - k, tag := 0));
  }

  /** If the active list cannot be freed when opening, all is as it was. */
  lemma {:induction false} RestoreRuns(s: State, c: nat)
    requires s.writer.None? && s.stale == {} && c in s.conns && s.conns[c].live
    ensures var acts := [ByConn(Lock(c)), ByTxn(ClearActive), ByTxn(Restore), ByTxn(Unlock)];
            Possible(s, acts) && After(s, acts) == s
  {
    hide Possible;
    hide After;
    LockRun(s, c);
    var w := Writer(c, s.hdrXid + 1, Locked, {}, {}, {}, {}, 0, {}, {}, {}, {}, 0);
    ClearRun(With(s, w), w);
    RunAppend(s, [ByConn(Lock(c))], [ByTxn(ClearActive)]);
    var t := With(s.(active := {}), w.(phase := ActiveCleared, freeing := s.active));
    RunOne(t, ByTxn(Restore));
    RunAppend(s, [ByConn(Lock(c))] + [ByTxn(ClearActive)], [ByTxn(Restore)]);
    UnlockRun(With(s, w), w);
    RunAppend(s, [ByConn(Lock(c))] + [ByTxn(ClearActive)] + [ByTxn(Restore)], [ByTxn(Unlock)]);
    assert [ByConn(Lock(c))] + [ByTxn(ClearActive)] + [ByTxn(Restore)] + [ByTxn(Unlock)]
           == [ByConn(Lock(c)), ByTxn(ClearActive), ByTxn(Restore), ByTxn(Unlock)];
  }

  /** A free or an allocation that fails lets go of what it has in hand, and takes nothing from lists and chain. */
  lemma {:induction false} DropLetsGo(s: State, w: Writer)
    requires s.writer == Some(w) && s.stale == {} && Busy(w)
    ensures Enabled(s, ByAlloc(Drop))
    ensures var t := Apply(s, ByAlloc(Drop)); t.writer.Some? && Idle(t.writer.value) && t.writer.value.pg == w.pg && t == s.(writer := t.writer)
  {
  }

  // ---- readers

  /** After every allocation, finished or not, the slots are scanned anew before another page is taken. */
  lemma {:induction false} ScanAgain(s: State, a: Action, p: nat)
    requires Enabled(s, a) && s.conns != map[]
    requires a in {ByAlloc(Drop), ByAlloc(EndAlloc(true)), ByAlloc(EndAlloc(false)), ByTxn(Restore)}
    ensures !Enabled(Apply(s, a), ByAlloc(Take(p))) && !Enabled(Apply(s, a), ByAlloc(Recycle(p))) && !Enabled(Apply(s, a), ByAlloc(Grow))
  {
    var c :| c in s.conns;
    var t := Apply(s, a);
    assert c in t.conns && t.writer.value.scanned == {};
  }

  /** A reader that takes its slot and loads a root holds that tree of the version published last. */
  lemma {:induction false} ReaderSees(s: State, c: nat, b: bool)
    requires c in s.conns && s.conns[c].live && s.conns[c].slot == 0 && s.hdrXid > 0 && s.versions != []
    ensures var acts := [ByConn(ReadXid(c)), ByConn(StoreXid(c)), ByConn(LoadRoot(c, b))];
            && Possible(s, acts)
            && var t := After(s, acts);
               && c in t.conns && t.conns[c].slot == s.hdrXid && t.versions == s.versions
               && forall d, p :: HeldPage(t, c, d, p) <==> d == b && p in Reach(Current(s), d)
  {
    var x, y, z := ByConn(ReadXid(c)), ByConn(StoreXid(c)), ByConn(LoadRoot(c, b));
    RunOne(s, x);
    var t := Apply(s, x);
    RunOne(t, y);
    var u := Apply(t, y);
    RunOne(u, z);
    RunAppend(s, [x], [y]);
    RunAppend(s, [x] + [y], [z]);
    assert [x] + [y] + [z] == [x, y, z];
  }

  /** Once it lets go it holds nothing, and must read the header again before it takes its slot. */
  lemma {:induction false} ReaderLeaves(s: State, c: nat)
    requires c in s.conns && s.conns[c].live
    ensures Enabled(s, ByConn(Release(c))) && Enabled(Apply(s, ByConn(Release(c))), ByConn(ReadXid(c)))
    ensures !Enabled(Apply(s, ByConn(Release(c))), ByConn(StoreXid(c)))
    ensures forall b, p :: !HeldPage(Apply(s, ByConn(Release(c))), c, b, p)
  {
  }

  /** Whoever takes over a slot begins without a snapshot and without pages, but for those listed as pending. */
  lemma {:induction false} TakenOver(s: State, c: nat)
    requires c in s.conns && !s.conns[c].live
    ensures Enabled(s, ByConn(Join(c)))
    ensures var t := Apply(s, ByConn(Join(c)));
            && t == s.(conns := s.conns[c := t.conns[c]]) && t.conns[c].live && t.conns[c].slot == 0
            && t.conns[c].pending == s.conns[c].pending && t.conns[c].kept == {} && (forall b, p :: !HeldPage(t, c, b, p))
            && Enabled(t, ByConn(ReadXid(c))) && !Enabled(t, ByConn(StoreXid(c)))
  {
    var t := Apply(s, ByConn(Join(c)));
    assert t.conns[c].live && t.conns[c].read == None;
  }

  /** When a process ends, its slot can be taken over, and the lock it held taken by another. */
  lemma {:induction false} EndedSlot(s: State, c: nat, d: nat)
    requires Inv(s) && s.stale == {} && c in s.conns && s.conns[c].live && d in s.conns && s.conns[d].live && d != c
    requires s.writer.Some? && s.writer.value.conn == c ==> s.writer.value.phase != Rooted
    ensures var a := if s.writer.Some? && s.writer.value.conn == c then ByTxn(Crash) else ByConn(Die(c));
            && Enabled(s, a)
            && var t := Apply(s, a);
               && Enabled(t, ByConn(Join(c))) && Apply(t, ByConn(Join(c))).conns[c].live && (forall b, p :: !HeldPage(t, c, b, p))
               && t.conns[c].pending == s.conns[c].pending
               && (s.writer.None? || s.writer.value.conn == c ==> Enabled(t, ByConn(Lock(d))))
  {
  }
}
