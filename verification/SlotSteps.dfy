/** The scan of the connection table (`Slots`) as steps of the writer (`Protocol`): what ed_idx_xmin answers for a table that
    stands still is what the steps leave as the least transaction still read. */
module SlotSteps {
  import opened Slots
  import opened AllocSteps
  import P = Protocol

  /** A connection is this slot of the table. */
  predicate Shows(c: P.Conn, x: Slot, dead: bool) {
    c.slot == (if Reading(x) then x.xid else 0) && c.live == !dead && c.pending == Set(x.pending)
  }

  function Below(n: nat): set<nat> {
    if n == 0 then {} else Below(n - 1) + {n - 1}
  }

  /** The connections are this table, of which the slots in `dead` have no owner. */
  predicate Table(conns: map<nat, P.Conn>, a: seq<Slot>, dead: set<nat>) {
    conns.Keys == Below(|a|) && forall i | 0 <= i < |a| :: i in conns && Shows(conns[i], a[i], i in dead)
  }

  lemma {:induction false} TableSet(conns: map<nat, P.Conn>, a: seq<Slot>, dead: set<nat>, n: nat, c: P.Conn, x: Slot)
    requires Table(conns, a, dead) && n < |a| && Shows(c, x, n in dead)
    ensures Table(conns[n := c], a[n := x], dead)
  {
    hide Shows;
  }

  /** A scan clears only slots without an owner, and not its own. */
  predicate Cleared(a: seq<Slot>, b: seq<Slot>, own: nat, dead: set<nat>) {
    |b| == |a| && forall i | 0 <= i < |a| :: b[i] == a[i] || (b[i] == EMPTY && i in dead && i != own)
  }

  function ScanStep(a: seq<Slot>, b: seq<Slot>, i: nat): P.Action
    requires i < |a| == |b|
  {
    P.ByAlloc(if b[i] == a[i] then P.ScanSlot(i) else P.ScanDead(i))
  }

  function Scan(a: seq<Slot>, b: seq<Slot>, n: nat): seq<P.Action>
    requires n <= |a| == |b|
  {
    if n == 0 then [P.ByAlloc(P.StartScan)] else Scan(a, b, n - 1) + [ScanStep(a, b, n - 1)]
  }

  /** The least of one transaction before the header's and those read in the first `n` slots. */
  function LeastOf(b: seq<Slot>, n: nat, hdrXid: nat): int
    requires n <= |b|
  {
    if n == 0 then hdrXid - 1
    else
      var m := LeastOf(b, n - 1, hdrXid);
      if Reading(b[n - 1]) && b[n - 1].xid < m then b[n - 1].xid else m
  }

  lemma {:induction false} LeastFacts(b: seq<Slot>, n: nat, hdrXid: nat)
    requires n <= |b|
    ensures var m := LeastOf(b, n, hdrXid);
            && m < hdrXid && (forall i | 0 <= i < n && Reading(b[i]) :: m <= b[i].xid)
            && (m == hdrXid - 1 || exists i | 0 <= i < n :: Reading(b[i]) && b[i].xid == m)
  {
    if n > 0 {
      LeastFacts(b, n - 1, hdrXid);
    }
  }

  /** The state after the first `n` slots. */
  ghost predicate Scanning(s: P.State, w: P.Writer, t: P.State, a: seq<Slot>, b: seq<Slot>, dead: set<nat>, n: nat)
    requires n <= |a| == |b|
  {
    && Table(t.conns, b[..n] + a[n..], dead)
    && t == s.(conns := t.conns, writer := P.Some(w.(scanned := Below(n), xmin := LeastOf(b, n, s.hdrXid))))
  }

  /** The writer may scan. */
  predicate Idle(s: P.State, w: P.Writer) {
    s.writer == P.Some(w) && s.stale == {} && P.Busy(w) && w.taken == {} && w.grown == {}
  }

  lemma {:induction false} ScanTo(s: P.State, w: P.Writer, a: seq<Slot>, b: seq<Slot>, dead: set<nat>, n: nat)
    requires Idle(s, w) && Table(s.conns, a, dead) && Cleared(a, b, w.conn, dead) && n <= |a|
    ensures P.Possible(s, Scan(a, b, n)) && Scanning(s, w, P.After(s, Scan(a, b, n)), a, b, dead, n)
  {
    hide P.Possible;
    hide P.After;
    hide P.Enabled;
    hide P.Apply;
    hide Table;
    hide Scanning;
    if n == 0 {
      ScanStart(s, w, a, b, dead);
      RunOne(s, P.ByAlloc(P.StartScan));
    } else {
      ScanTo(s, w, a, b, dead, n - 1);
      var t := P.After(s, Scan(a, b, n - 1));
      ScanOne(s, w, t, a, b, dead, n - 1);
      RunOne(t, ScanStep(a, b, n - 1));
      RunAppend(s, Scan(a, b, n - 1), [ScanStep(a, b, n - 1)]);
    }
  }

  lemma {:induction false} ScanStart(s: P.State, w: P.Writer, a: seq<Slot>, b: seq<Slot>, dead: set<nat>)
    requires Idle(s, w) && Table(s.conns, a, dead) && |a| == |b|
    ensures P.Enabled(s, P.ByAlloc(P.StartScan)) && Scanning(s, w, P.Apply(s, P.ByAlloc(P.StartScan)), a, b, dead, 0)
  {
    hide Table;
    assert b[..0] + a[0..] == a;
  }

  lemma {:induction false} ScanOne(s: P.State, w: P.Writer, t: P.State, a: seq<Slot>, b: seq<Slot>, dead: set<nat>, n: nat)
    requires Idle(s, w) && n < |a| == |b| && Scanning(s, w, t, a, b, dead, n) && Cleared(a, b, w.conn, dead)
    ensures P.Enabled(t, ScanStep(a, b, n)) && Scanning(s, w, P.Apply(t, ScanStep(a, b, n)), a, b, dead, n + 1)
  {
    hide Table;
    LeastFacts(b, n, s.hdrXid);
    var x, y := b[..n] + a[n..], b[..n + 1] + a[n + 1..];
    assert x[n] == a[n] && y == x[n := b[n]];
    TableAt(t.conns, x, dead, n);
    if b[n] == a[n] {
      assert y == x;
      ScanLive(t, n, a[n], n in dead);
    } else {
      TableSet(t.conns, x, dead, n, t.conns[n].(slot := 0, pending := {}), b[n]);
      ScanGone(t, n);
    }
  }

  lemma {:induction false} ScanLive(t: P.State, n: nat, x: Slot, dead: bool)
    requires t.writer.Some? && Idle(t, t.writer.value) && t.writer.value.xmin < t.hdrXid && n in t.conns && Shows(t.conns[n], x, dead)
    ensures P.Enabled(t, P.ByAlloc(P.ScanSlot(n)))
    ensures var w := t.writer.value;
            P.Apply(t, P.ByAlloc(P.ScanSlot(n))) ==
            t.(writer := P.Some(w.(scanned := w.scanned + {n}, xmin := if Reading(x) && x.xid < w.xmin then x.xid else w.xmin)))
  {
  }

  lemma {:induction false} ScanGone(t: P.State, n: nat)
    requires t.writer.Some? && Idle(t, t.writer.value) && t.writer.value.xmin < t.hdrXid && n in t.conns && !t.conns[n].live && n != t.writer.value.conn
    ensures P.Enabled(t, P.ByAlloc(P.ScanDead(n)))
    ensures var w := t.writer.value;
            P.Apply(t, P.ByAlloc(P.ScanDead(n))) ==
            t.(conns := t.conns[n := t.conns[n].(slot := 0, pending := {})], writer := P.Some(w.(scanned := w.scanned + {n})))
  {
  }

  lemma {:induction false} TableAt(conns: map<nat, P.Conn>, a: seq<Slot>, dead: set<nat>, n: nat)
    requires Table(conns, a, dead) && n < |a|
    ensures n in conns && Shows(conns[n], a[n], n in dead)
  {
  }

  /** What ed_idx_xmin answers, as `Slots.Xmin` describes it, is what the steps leave. */
  lemma {:induction false} ScanRuns(s: P.State, w: P.Writer, a: seq<Slot>, b: seq<Slot>, dead: set<nat>, xid: nat)
    requires Idle(s, w) && s.hdrXid > 0 && Table(s.conns, a, dead) && Cleared(a, b, w.conn, dead)
    requires forall i: nat | i < |b| && b[i].pid != 0 && b[i].xid != 0 :: xid <= b[i].xid
    requires xid < s.hdrXid && (xid + 1 == s.hdrXid || exists i: nat :: i < |b| && b[i].pid != 0 && b[i].xid == xid != 0)
    ensures P.Possible(s, Scan(a, b, |a|))
    ensures var t := P.After(s, Scan(a, b, |a|));
            && Table(t.conns, b, dead)
            && t == s.(conns := t.conns, writer := P.Some(w.(scanned := s.conns.Keys, xmin := xid)))
  {
    hide P.Possible;
    hide P.After;
    ScanTo(s, w, a, b, dead, |a|);
    LeastFacts(b, |b|, s.hdrXid);
    assert b[..|a|] + a[|a|..] == b;
  }
}
