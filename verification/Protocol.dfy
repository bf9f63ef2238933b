/** One locked writer and any number of readers over one index file (lib/txn.c, lib/idx.c): who may hold which
    page, write by write, with a crash possible between any two. */
module Protocol {

  datatype Option<T> = None | Some(value: T)

  /** A committed pair of trees: the transaction that published it and the pages each tree reaches. */
  datatype Version = Version(xid: nat, first: set<nat>, second: set<nat>)

  /** A connection slot and the process behind it. `slot` is conn->xid, `read` an xid read from the header and
      not yet stored there, `held` the version whose root was loaded, per tree, `pending` the pages the slot
      lists, `kept` those of them that its transaction object still has. */
  datatype Conn = Conn(live: bool, slot: nat, read: Option<nat>, held: map<bool, nat>, pending: set<nat>, kept: set<nat>)

  /** How far the writer has got: opening, open, committing, closing; or closing after reading only. */
  datatype Phase = Locked | ActiveCleared | PendingCleared | Open | Flushed | Rooted | Dated | Closing | Draining | Returning

  /** The writer's memory. `pg` are pages it may write to, `used` those of them the new trees reach, `gone` the
      pages of the published trees that the new ones do without. A running ed_alloc has scanned some slots into
      `xmin` and staged `taken` and `grown`; a running ed_free_pgno has `spare` pages to extend the chain and
      pages `freeing` still to list under `tag` or later. */
  datatype Writer = Writer(conn: nat, xid: nat, phase: Phase, pg: set<nat>, used: set<nat>, gone: set<nat>,
                           scanned: set<nat>, xmin: int, taken: set<nat>, grown: set<nat>,
                           spare: set<nat>, freeing: set<nat>, tag: nat)

  /** The header and what it leads to: `free` are the listed pages with the xid of their list, `chain` the gc
      pages, `active` the list of pages in use by a transaction, `tail` the first page never used. `stale` are the
      pages that a list seems to hold while it is counted already and its header not yet written. */
  datatype State = State(hdrXid: nat, versions: seq<Version>, free: map<nat, nat>, chain: set<nat>, active: set<nat>, tail: nat,
                         stale: set<nat>, conns: map<nat, Conn>, writer: Option<Writer>)

  /** The pages of the first or the second tree. */
  function Reach(v: Version, second: bool): set<nat> {
    if second then v.second else v.first
  }

  function Current(s: State): Version
    requires s.versions != []
  {
    s.versions[|s.versions| - 1]
  }

  /** All pages of the published trees. */
  function Tree(s: State): set<nat>
    requires s.versions != []
  {
    Current(s).first + Current(s).second
  }

  predicate Ripe(xid: nat, xmin: int) {
    xid == 0 || xid < xmin
  }

  // ---- the steps

  /** Pages may be allocated and freed. */
  predicate Busy(w: Writer) {
    w.phase !in {Locked, Flushed, Rooted, Draining}
  }

  /** No ed_alloc or ed_free_pgno is running. */
  predicate Idle(w: Writer) {
    w.taken == {} && w.grown == {} && w.spare == {} && w.freeing == {}
  }

  // ed_idx_acquire_xid reads the header, then
  predicate CanReadXid(s: State, c: nat) {
    c in s.conns && s.conns[c].live && s.conns[c].slot == 0
  }

  function DoReadXid(s: State, c: nat): State
    requires CanReadXid(s, c)
  {
    s.(conns := s.conns[c := s.conns[c].(read := Some(s.hdrXid))])
  }

  // stores into its slot.
  predicate CanStoreXid(s: State, c: nat) {
    c in s.conns && s.conns[c].live && s.conns[c].read.Some? && s.conns[c].slot == 0
  }

  function DoStoreXid(s: State, c: nat): State
    requires CanStoreXid(s, c)
  {
    s.(conns := s.conns[c := s.conns[c].(slot := s.conns[c].read.value, held := map[])])
  }

  // ed_idx_acquire_snapshot then loads the roots one by one.
  predicate CanLoadRoot(s: State, c: nat, second: bool) {
    s.versions != [] && c in s.conns && s.conns[c].live && s.conns[c].slot != 0
  }

  function DoLoadRoot(s: State, c: nat, second: bool): State
    requires CanLoadRoot(s, c, second)
  {
    s.(conns := s.conns[c := s.conns[c].(held := s.conns[c].held[second := |s.versions| - 1])])
  }

  // ed_idx_release_xid.
  predicate CanRelease(s: State, c: nat) {
    c in s.conns && s.conns[c].live
  }

  function DoRelease(s: State, c: nat): State
    requires CanRelease(s, c)
  {
    s.(conns := s.conns[c := s.conns[c].(slot := 0, read := None, held := map[])])
  }

  // conn_acquire of a slot whose owner is gone; what it lists as pending stays.
  predicate CanJoin(s: State, c: nat) {
    c in s.conns && !s.conns[c].live
  }

  function DoJoin(s: State, c: nat): State
    requires CanJoin(s, c)
  {
    s.(conns := s.conns[c := s.conns[c].(live := true, slot := 0, read := None, held := map[], kept := {})])
  }

  // A process other than the writer ends; its slot stays as it is.
  predicate CanDie(s: State, c: nat) {
    c in s.conns && s.conns[c].live && (s.writer.Some? ==> s.writer.value.conn != c)
  }

  function DoDie(s: State, c: nat): State
    requires CanDie(s, c)
  {
    s.(conns := s.conns[c := s.conns[c].(live := false, held := map[], kept := {})])
  }

  // ed_txn_open takes the write lock.
  predicate CanLock(s: State, c: nat) {
    s.writer.None? && c in s.conns && s.conns[c].live
  }

  function DoLock(s: State, c: nat): State
    requires CanLock(s, c)
  {
    s.(writer := Some(Writer(c, s.hdrXid + 1, Locked, {}, {}, {}, {}, 0, {}, {}, {}, {}, 0)))
  }

  // Active pages of an abandoned transaction leave their list before they enter the free list.
  predicate CanClearActive(s: State, w: Writer) {
    w.phase == Locked && Idle(w)
  }

  function DoClearActive(s: State, w: Writer): State
    requires CanClearActive(s, w)
  {
    s.(active := {}, writer := Some(w.(phase := ActiveCleared, freeing := s.active, tag := 0)))
  }

  // If that fails, what it has not listed is put back, and the lock given up.
  predicate CanRestore(s: State, w: Writer) {
    w.phase == ActiveCleared && s.active == {}
  }

  function DoRestore(s: State, w: Writer): State
    requires CanRestore(s, w)
  {
    s.(active := w.freeing, writer := Some(w.(phase := Locked, freeing := {}, spare := {}, taken := {}, grown := {}, scanned := {})))
  }

  // Pending pages are freed if the transaction has none of its own; otherwise it goes on with those it has.
  predicate CanClearPending(s: State, w: Writer) {
    w.phase == ActiveCleared && Idle(w) && w.conn in s.conns
  }

  function DoClearPending(s: State, w: Writer): State
    requires CanClearPending(s, w)
  {
    var c := s.conns[w.conn];
    s.(conns := s.conns[w.conn := c.(pending := {}, kept := {})],
       writer := Some(w.(phase := PendingCleared, pg := c.kept, freeing := if c.kept == {} then c.pending else {}, tag := 0)))
  }

  // The transaction's pages, as far as they fit, are listed as active.
  predicate CanSetActive(s: State, w: Writer, x: set<nat>) {
    w.phase == PendingCleared && Idle(w) && x <= w.pg
  }

  function DoSetActive(s: State, w: Writer, x: set<nat>): State
    requires CanSetActive(s, w, x)
  {
    s.(active := x, writer := Some(w.(phase := Open)))
  }

  // An edit puts a page of the transaction into the new trees,
  predicate CanUse(s: State, w: Writer, p: nat) {
    w.phase == Open && p in w.pg
  }

  function DoUse(s: State, w: Writer, p: nat): State
    requires CanUse(s, w, p)
  {
    s.(writer := Some(w.(used := w.used + {p})))
  }

  // or does without one of the published trees.
  predicate CanDiscard(s: State, w: Writer, p: nat) {
    w.phase == Open && s.versions != [] && p in Tree(s)
  }

  function DoDiscard(s: State, w: Writer, p: nat): State
    requires CanDiscard(s, w, p)
  {
    s.(writer := Some(w.(gone := w.gone + {p})))
  }

  // Newly allocated pages are added to the active list.
  predicate CanMarkActive(s: State, w: Writer, x: set<nat>) {
    w.phase == Open && x <= w.pg
  }

  function DoMarkActive(s: State, w: Writer, x: set<nat>): State
    requires CanMarkActive(s, w, x)
  {
    s.(active := s.active + x)
  }

  // ed_idx_xmin starts from the header,
  predicate CanStartScan(s: State, w: Writer) {
    Busy(w) && w.taken == {} && w.grown == {}
  }

  function DoStartScan(s: State, w: Writer): State
    requires CanStartScan(s, w)
  {
    s.(writer := Some(w.(scanned := {}, xmin := s.hdrXid - 1)))
  }

  // reads one slot after the other,
  predicate CanScanSlot(s: State, w: Writer, c: nat) {
    Busy(w) && c in s.conns && w.taken == {} && w.grown == {} && w.xmin < s.hdrXid
  }

  function DoScanSlot(s: State, w: Writer, c: nat): State
    requires CanScanSlot(s, w, c)
  {
    var x := s.conns[c].slot;
    s.(writer := Some(w.(scanned := w.scanned + {c}, xmin := if x != 0 && x < w.xmin then x else w.xmin)))
  }

  // and wipes a slot whose owner is gone.
  predicate CanScanDead(s: State, w: Writer, c: nat) {
    Busy(w) && c in s.conns && !s.conns[c].live && c != w.conn && w.taken == {} && w.grown == {} && w.xmin < s.hdrXid
  }

  function DoScanDead(s: State, w: Writer, c: nat): State
    requires CanScanDead(s, w, c)
  {
    s.(conns := s.conns[c := s.conns[c].(slot := 0, pending := {})], writer := Some(w.(scanned := w.scanned + {c})))
  }

  // ed_alloc stages listed pages that no reader may need,
  predicate CanTake(s: State, w: Writer, p: nat) {
    Busy(w) && s.conns.Keys <= w.scanned && p in s.free && Ripe(s.free[p], w.xmin)
  }

  function DoTake(s: State, w: Writer, p: nat): State
    requires CanTake(s, w, p)
  {
    s.(writer := Some(w.(taken := w.taken + {p})))
  }

  // gc pages that ran empty,
  predicate CanRecycle(s: State, w: Writer, p: nat) {
    Busy(w) && s.conns.Keys <= w.scanned && p in s.chain
  }

  function DoRecycle(s: State, w: Writer, p: nat): State
    requires CanRecycle(s, w, p)
  {
    s.(writer := Some(w.(taken := w.taken + {p})))
  }

  // and pages from the end of the file,
  predicate CanGrow(s: State, w: Writer) {
    Busy(w) && s.conns.Keys <= w.scanned
  }

  function DoGrow(s: State, w: Writer): State
    requires CanGrow(s, w)
  {
    s.(tail := s.tail + 1, writer := Some(w.(grown := w.grown + {s.tail})))
  }

  // of which those of the page reached leave their lists when its state is written,
  predicate CanStoreState(s: State, w: Writer, x: set<nat>) {
    Busy(w) && x <= w.taken && x <= s.free.Keys
  }

  function DoStoreState(s: State, w: Writer, x: set<nat>): State
    requires CanStoreState(s, w, x)
  {
    s.(free := map p | p in s.free && p !in x :: s.free[p], writer := Some(w.(taken := w.taken - x, grown := w.grown + x)))
  }

  // and the others with the pages in front of it when the chain begins there: for the transaction, or to extend the chain.
  predicate CanEndAlloc(s: State, w: Writer, forChain: bool) {
    Busy(w) && (forChain || w.phase == Open)
  }

  function DoEndAlloc(s: State, w: Writer, forChain: bool): State
    requires CanEndAlloc(s, w, forChain)
  {
    var staged := w.taken + w.grown;
    var v := if forChain then w.(spare := w.spare + staged) else w.(pg := w.pg + staged);
    s.(free := map p | p in s.free && p !in w.taken :: s.free[p], chain := s.chain - w.taken,
       writer := Some(v.(taken := {}, grown := {}, scanned := {})))
  }

  // ed_free_pgno appends a gc page,
  predicate CanLink(s: State, w: Writer, p: nat) {
    Busy(w) && p in w.spare
  }

  function DoLink(s: State, w: Writer, p: nat): State
    requires CanLink(s, w, p)
  {
    s.(chain := s.chain + {p}, writer := Some(w.(spare := w.spare - {p})))
  }

  // opens a list, which then seems to hold what was left behind where it begins,
  predicate CanOpenList(s: State, w: Writer, x: set<nat>) {
    Busy(w)
  }

  function DoOpenList(s: State, w: Writer, x: set<nat>): State
    requires CanOpenList(s, w, x)
  {
    s.(stale := x)
  }

  // until its header is written,
  predicate CanStoreHeader(s: State, w: Writer) {
    Busy(w)
  }

  function DoStoreHeader(s: State, w: Writer): State
    requires CanStoreHeader(s, w)
  {
    s.(stale := {})
  }

  // lists a page under its transaction or a later one,
  predicate CanList(s: State, w: Writer, p: nat, xid: nat) {
    Busy(w) && p in w.freeing && xid >= w.tag
  }

  function DoList(s: State, w: Writer, p: nat, xid: nat): State
    requires CanList(s, w, p, xid)
  {
    s.(free := s.free[p := xid], writer := Some(w.(freeing := w.freeing - {p})))
  }

  // or fails and loses what it had in hand.
  predicate CanDrop(s: State, w: Writer) {
    Busy(w)
  }

  function DoDrop(s: State, w: Writer): State
    requires CanDrop(s, w)
  {
    s.(writer := Some(w.(freeing := {}, spare := {}, taken := {}, grown := {}, scanned := {})))
  }

  // ed_txn_commit flushes the active list and sets the unused pages apart,
  predicate CanFlush(s: State, w: Writer) {
    w.phase == Open && Idle(w)
  }

  function DoFlush(s: State, w: Writer): State
    requires CanFlush(s, w)
  {
    s.(active := {}, writer := Some(w.(phase := Flushed, pg := w.pg - w.used)))
  }

  // publishes both roots in one write, of trees that reach what BptCommit.Publishable says,
  predicate CanPublishRoots(s: State, w: Writer, x: set<nat>, y: set<nat>) {
    w.phase == Flushed && s.versions != [] && x !! y && x + y == (Tree(s) - w.gone) + w.used
  }

  function DoPublishRoots(s: State, w: Writer, x: set<nat>, y: set<nat>): State
    requires CanPublishRoots(s, w, x, y)
  {
    s.(versions := s.versions + [Version(w.xid, x, y)],
       writer := Some(w.(phase := Rooted, used := {}, gone := {}, freeing := w.gone, tag := w.xid)))
  }

  // then the xid, and frees the pages gone under it.
  predicate CanPublishXid(s: State, w: Writer) {
    w.phase == Rooted
  }

  function DoPublishXid(s: State, w: Writer): State
    requires CanPublishXid(s, w)
  {
    s.(hdrXid := w.xid, writer := Some(w.(phase := Dated)))
  }

  // ed_txn_close flushes the active list again,
  predicate CanFreed(s: State, w: Writer) {
    w.phase == Dated && Idle(w)
  }

  function DoFreed(s: State, w: Writer): State
    requires CanFreed(s, w)
  {
    s.(active := {}, writer := Some(w.(phase := Closing)))
  }

  // also when nothing was committed,
  predicate CanCancel(s: State, w: Writer) {
    w.phase == Open && Idle(w)
  }

  function DoCancel(s: State, w: Writer): State
    requires CanCancel(s, w)
  {
    s.(active := {}, writer := Some(w.(phase := Closing, used := {}, gone := {})))
  }

  // lists some of the pages left as pending and frees the rest.
  predicate CanKeep(s: State, w: Writer, k: set<nat>) {
    w.phase == Closing && Idle(w) && k <= w.pg && w.conn in s.conns
  }

  function DoKeep(s: State, w: Writer, k: set<nat>): State
    requires CanKeep(s, w, k)
  {
    s.(conns := s.conns[w.conn := s.conns[w.conn].(pending := k, kept := k)],
       writer := Some(w.(phase := Returning, pg := {}, freeing := w.pg - k, tag := 0)))
  }

  // A transaction that only read takes the lock to close if it has pages left: it flushes the active list as well,
  predicate CanReadFlush(s: State, w: Writer) {
    w.phase == Locked && Idle(w) && w.conn in s.conns && s.conns[w.conn].kept != {}
  }

  function DoReadFlush(s: State, w: Writer): State
    requires CanReadFlush(s, w)
  {
    s.(active := {}, writer := Some(w.(phase := Draining)))
  }

  // and lists some of its pages as pending and frees the rest.
  predicate CanReadKeep(s: State, w: Writer, k: set<nat>) {
    w.phase == Draining && Idle(w) && w.conn in s.conns && k <= s.conns[w.conn].kept
  }

  function DoReadKeep(s: State, w: Writer, k: set<nat>): State
    requires CanReadKeep(s, w, k)
  {
    var c := s.conns[w.conn];
    s.(conns := s.conns[w.conn := c.(pending := k, kept := k)],
       writer := Some(w.(phase := Returning, freeing := c.kept - k, tag := 0)))
  }

  // The lock is given up, also when opening failed.
  predicate CanUnlock(s: State, w: Writer) {
    w.phase in {Returning, Locked} && Idle(w)
  }

  function DoUnlock(s: State, w: Writer): State
    requires CanUnlock(s, w)
  {
    s.(writer := None)
  }

  // The writer ends, anywhere but between the two writes that publish and where a list seems to hold stale pages.
  predicate CanCrash(s: State, w: Writer) {
    w.phase != Rooted && s.stale == {} && w.conn in s.conns
  }

  function DoCrash(s: State, w: Writer): State
    requires CanCrash(s, w)
  {
    s.(writer := None, conns := s.conns[w.conn := s.conns[w.conn].(live := false, held := map[], kept := {})])
  }

  /** What connections do. */
  datatype ConnStep =
    | ReadXid(nat)
    | StoreXid(nat)
    | LoadRoot(nat, bool)
    | Release(nat)
    | Join(nat)
    | Die(nat)
    | Lock(nat)

  /** What the writer does to open, commit and close. */
  datatype TxnStep =
    | ClearActive
    | Restore
    | ClearPending
    | SetActive(set<nat>)
    | Use(nat)
    | Discard(nat)
    | MarkActive(set<nat>)
    | Flush
    | PublishRoots(set<nat>, set<nat>)
    | PublishXid
    | Freed
    | Cancel
    | Keep(set<nat>)
    | ReadFlush
    | ReadKeep(set<nat>)
    | Unlock
    | Crash

  /** What ed_alloc and ed_free_pgno do for it. */
  datatype AllocStep =
    | StartScan
    | ScanSlot(nat)
    | ScanDead(c: nat)
    | Take(nat)
    | Recycle(nat)
    | Grow
    | StoreState(set<nat>)
    | EndAlloc(bool)
    | Link(nat)
    | OpenList(set<nat>)
    | StoreHeader
    | List(nat, nat)
    | Drop

  datatype Action = ByConn(conn: ConnStep) | ByTxn(txn: TxnStep) | ByAlloc(alloc: AllocStep)

  predicate ConnEnabled(s: State, a: ConnStep) {
    match a
    case ReadXid(c) => CanReadXid(s, c)
    case StoreXid(c) => CanStoreXid(s, c)
    case LoadRoot(c, second) => CanLoadRoot(s, c, second)
    case Release(c) => CanRelease(s, c)
    case Join(c) => CanJoin(s, c)
    case Die(c) => CanDie(s, c)
    case Lock(c) => CanLock(s, c)
  }

  function ConnApply(s: State, a: ConnStep): State
    requires ConnEnabled(s, a)
  {
    match a
    case ReadXid(c) => DoReadXid(s, c)
    case StoreXid(c) => DoStoreXid(s, c)
    case LoadRoot(c, second) => DoLoadRoot(s, c, second)
    case Release(c) => DoRelease(s, c)
    case Join(c) => DoJoin(s, c)
    case Die(c) => DoDie(s, c)
    case Lock(c) => DoLock(s, c)
  }

  predicate TxnEnabled(s: State, w: Writer, a: TxnStep) {
    match a
    case ClearActive => CanClearActive(s, w)
    case Restore => CanRestore(s, w)
    case ClearPending => CanClearPending(s, w)
    case SetActive(x) => CanSetActive(s, w, x)
    case Use(p) => CanUse(s, w, p)
    case Discard(p) => CanDiscard(s, w, p)
    case MarkActive(x) => CanMarkActive(s, w, x)
    case Flush => CanFlush(s, w)
    case PublishRoots(x, y) => CanPublishRoots(s, w, x, y)
    case PublishXid => CanPublishXid(s, w)
    case Freed => CanFreed(s, w)
    case Cancel => CanCancel(s, w)
    case Keep(k) => CanKeep(s, w, k)
    case ReadFlush => CanReadFlush(s, w)
    case ReadKeep(k) => CanReadKeep(s, w, k)
    case Unlock => CanUnlock(s, w)
    case Crash => CanCrash(s, w)
  }

  function TxnApply(s: State, w: Writer, a: TxnStep): State
    requires TxnEnabled(s, w, a)
  {
    match a
    case ClearActive => DoClearActive(s, w)
    case Restore => DoRestore(s, w)
    case ClearPending => DoClearPending(s, w)
    case SetActive(x) => DoSetActive(s, w, x)
    case Use(p) => DoUse(s, w, p)
    case Discard(p) => DoDiscard(s, w, p)
    case MarkActive(x) => DoMarkActive(s, w, x)
    case Flush => DoFlush(s, w)
    case PublishRoots(x, y) => DoPublishRoots(s, w, x, y)
    case PublishXid => DoPublishXid(s, w)
    case Freed => DoFreed(s, w)
    case Cancel => DoCancel(s, w)
    case Keep(k) => DoKeep(s, w, k)
    case ReadFlush => DoReadFlush(s, w)
    case ReadKeep(k) => DoReadKeep(s, w, k)
    case Unlock => DoUnlock(s, w)
    case Crash => DoCrash(s, w)
  }

  predicate AllocEnabled(s: State, w: Writer, a: AllocStep) {
    match a
    case StartScan => CanStartScan(s, w)
    case ScanSlot(c) => CanScanSlot(s, w, c)
    case ScanDead(c) => CanScanDead(s, w, c)
    case Take(p) => CanTake(s, w, p)
    case Recycle(p) => CanRecycle(s, w, p)
    case Grow => CanGrow(s, w)
    case StoreState(x) => CanStoreState(s, w, x)
    case EndAlloc(forChain) => CanEndAlloc(s, w, forChain)
    case Link(p) => CanLink(s, w, p)
    case OpenList(x) => CanOpenList(s, w, x)
    case StoreHeader => CanStoreHeader(s, w)
    case List(p, xid) => CanList(s, w, p, xid)
    case Drop => CanDrop(s, w)
  }

  function AllocApply(s: State, w: Writer, a: AllocStep): State
    requires AllocEnabled(s, w, a)
  {
    match a
    case StartScan => DoStartScan(s, w)
    case ScanSlot(c) => DoScanSlot(s, w, c)
    case ScanDead(c) => DoScanDead(s, w, c)
    case Take(p) => DoTake(s, w, p)
    case Recycle(p) => DoRecycle(s, w, p)
    case Grow => DoGrow(s, w)
    case StoreState(x) => DoStoreState(s, w, x)
    case EndAlloc(forChain) => DoEndAlloc(s, w, forChain)
    case Link(p) => DoLink(s, w, p)
    case OpenList(x) => DoOpenList(s, w, x)
    case StoreHeader => DoStoreHeader(s, w)
    case List(p, xid) => DoList(s, w, p, xid)
    case Drop => DoDrop(s, w)
  }

  predicate Enabled(s: State, a: Action) {
    match a
    case ByConn(c) => ConnEnabled(s, c)
    case ByTxn(x) => s.writer.Some? && s.stale == {} && TxnEnabled(s, s.writer.value, x)
    case ByAlloc(x) => s.writer.Some? && (s.stale == {} || x.StoreHeader?) && AllocEnabled(s, s.writer.value, x)
  }

  function Apply(s: State, a: Action): State
    requires Enabled(s, a)
  {
    match a
    case ByConn(c) => ConnApply(s, c)
    case ByTxn(x) => TxnApply(s, s.writer.value, x)
    case ByAlloc(x) => AllocApply(s, s.writer.value, x)
  }

  // ---- what every step keeps

  /** In the writer's hands, or in the list that stands for them after a crash. */
  predicate InHand(s: State, p: nat) {
    || p in s.active
    || (s.writer.Some? &&
        var w := s.writer.value; p in w.pg || p in w.used || p in w.spare || p in w.grown || p in w.freeing)
  }

  /** In the published trees, the free lists, the gc chain, the writer's hands or the unused end of the file. */
  predicate Placed(s: State, p: nat)
    requires s.versions != []
  {
    p in Tree(s) || p in s.free || p in s.chain || InHand(s, p) || p >= s.tail
  }

  /** In at most one of these. */
  predicate OnePlace(s: State, p: nat)
    requires s.versions != []
  {
    && (p in Tree(s) ==> p !in s.free && p !in s.chain && !InHand(s, p) && p < s.tail)
    && (p in s.free ==> p !in s.chain && !InHand(s, p) && p < s.tail)
    && (p in s.chain ==> !InHand(s, p) && p < s.tail)
    && (InHand(s, p) ==> p < s.tail)
  }

  /** A page that connection `c` lists as pending is in none of these, and no other connection lists it. */
  predicate PendingAlone(s: State, c: nat, p: nat)
    requires s.versions != []
  {
    c in s.conns && p in s.conns[c].pending ==>
      !Placed(s, p) && forall d | d in s.conns && d != c :: p !in s.conns[d].pending
  }

  /** In the writer's hands a page has one use. */
  predicate OneUse(w: Writer, p: nat) {
    && (p in w.pg ==> p !in w.spare && p !in w.grown && p !in w.freeing)
    && (p in w.spare ==> p !in w.grown && p !in w.freeing)
    && (p in w.grown ==> p !in w.freeing)
    && (p in w.used ==> (if w.phase == Flushed then p !in w.pg else p in w.pg) && p !in w.spare && p !in w.grown && p !in w.freeing)
  }

  /** Connection `c` holds a version whose tree reaches `p`. */
  predicate HeldPage(s: State, c: nat, b: bool, p: nat) {
    && c in s.conns && s.conns[c].live && b in s.conns[c].held && s.conns[c].held[b] < |s.versions|
    && p in Reach(s.versions[s.conns[c].held[b]], b)
  }

  function HeldXid(s: State, c: nat, b: bool): nat
    requires c in s.conns && b in s.conns[c].held && s.conns[c].held[b] < |s.versions|
  {
    s.versions[s.conns[c].held[b]].xid
  }

  /** Page `p` of a version published by `xid` is not being reused: it is in hand only to be listed, and listed
      only under later transactions. */
  predicate Guarded(s: State, xid: nat, p: nat) {
    && p < s.tail && p !in s.chain && p !in s.active
    && (forall d | d in s.conns :: p !in s.conns[d].pending)
    && (p in s.free ==> s.free[p] > xid)
    && (s.writer.Some? ==>
          var w := s.writer.value;
          && p !in w.pg && p !in w.used && p !in w.spare && p !in w.grown && p !in w.taken
          && (p in w.freeing ==> w.tag > xid))
  }

  /** Versions come in the order of their transactions; the header's xid is the newest but while a commit is
      between its two writes. */
  ghost predicate Dates(s: State) {
    && s.versions != [] && s.hdrXid > 0
    && (forall i, j | 0 <= i < j < |s.versions| :: s.versions[i].xid < s.versions[j].xid)
    && Current(s).first !! Current(s).second
    && Current(s).xid == (if s.writer.Some? && s.writer.value.phase == Rooted then s.writer.value.xid else s.hdrXid)
    && (s.writer.Some? && s.writer.value.phase in {Locked, ActiveCleared, PendingCleared, Open, Flushed, Rooted} ==>
          s.writer.value.xid == s.hdrXid + 1)
  }

  /** A reader's slot is not later than the versions it holds. */
  ghost predicate SlotOk(s: State, c: Conn) {
    && (c.kept == {} || c.kept == c.pending) && (!c.live ==> c.held == map[] && c.kept == {})
    && (c.read.Some? ==> 0 < c.read.value <= s.hdrXid) && c.slot <= s.hdrXid
    && (forall b | b in c.held :: c.held[b] < |s.versions| && 0 < c.slot <= s.versions[c.held[b]].xid)
  }

  /** No connection scanned so far holds a version older than `xmin`. */
  ghost predicate Scanned(s: State, w: Writer) {
    forall c, b | c in w.scanned && c in s.conns && s.conns[c].live && b in s.conns[c].held && s.conns[c].held[b] < |s.versions| ::
      w.xmin <= HeldXid(s, c, b)
  }

  ghost predicate WriterOk(s: State, w: Writer)
    requires s.versions != []
  {
    && w.conn in s.conns && s.conns[w.conn].live
    && w.taken <= s.free.Keys + s.chain
    && (w.phase in {PendingCleared, Open, Flushed, Rooted, Dated, Closing} ==> s.conns[w.conn].pending == {})
    && (w.phase == Draining ==> s.conns[w.conn].kept != {})
    && (w.phase in {Locked, ActiveCleared, Draining, Returning} ==> w.pg == {}) && (w.phase == ActiveCleared ==> w.tag == 0)
    && (w.phase !in {Open, Flushed} ==> w.used == {} && w.gone == {})
    && (w.phase == Open ==> s.active <= w.pg) && (w.phase != Open && w.phase != Locked ==> s.active == {})
    && (w.phase == Rooted ==> w.taken == {} && w.grown == {} && w.spare == {}) && (w.phase in {Locked, Flushed, Draining} ==> Idle(w))
    && w.gone <= Tree(s)
    && (w.scanned != {} ==> w.xmin < s.hdrXid)
    && Scanned(s, w)
  }

  ghost predicate Inv(s: State) {
    && Dates(s)
    && (forall c | c in s.conns :: SlotOk(s, s.conns[c]))
    && (forall p :: OnePlace(s, p))
    && (forall c, p :: PendingAlone(s, c, p))
    && (forall c, b, p | HeldPage(s, c, b, p) :: Guarded(s, HeldXid(s, c, b), p))
    && (s.writer.Some? ==> WriterOk(s, s.writer.value) && forall p :: OneUse(s.writer.value, p))
  }

  /** Connection `c` changed its slot, what it holds or who runs it: it may go on holding what it held, and may
      hold the published version. */
  predicate Reslotted(s: State, t: State, c: nat) {
    && s.versions != [] && c in s.conns && c in t.conns && t == s.(conns := s.conns[c := t.conns[c]])
    && t.conns[c].pending == s.conns[c].pending
    && (s.writer.Some? && s.writer.value.conn == c ==> t.conns[c].live && t.conns[c].kept == s.conns[c].kept)
    && (forall b | b in t.conns[c].held ::
          || t.conns[c].held[b] == |s.versions| - 1
          || (s.conns[c].live && b in s.conns[c].held && t.conns[c].held[b] == s.conns[c].held[b]))
  }

  lemma {:induction false} ReslottedPlaces(s: State, t: State, c: nat)
    requires Inv(s) && Reslotted(s, t, c)
    ensures (forall p :: OnePlace(t, p)) && (forall d, p :: PendingAlone(t, d, p))
  {
    forall p ensures OnePlace(t, p) {
      assert OnePlace(s, p);
    }
    forall d, p ensures PendingAlone(t, d, p) {
      assert PendingAlone(s, d, p);
    }
  }

  /** A page of the published trees may be held. */
  lemma {:induction false} TreeGuarded(s: State, p: nat)
    requires Inv(s) && p in Tree(s)
    ensures Guarded(s, Current(s).xid, p)
  {
    assert OnePlace(s, p);
    forall e | e in s.conns ensures p !in s.conns[e].pending {
      assert PendingAlone(s, e, p);
    }
  }

  lemma {:induction false} ReslottedPage(s: State, t: State, c: nat, d: nat, b: bool, p: nat)
    requires Inv(s) && Reslotted(s, t, c) && HeldPage(t, d, b, p)
    ensures Guarded(t, HeldXid(t, d, b), p)
  {
    if d == c && t.conns[c].held[b] == |s.versions| - 1 {
      TreeGuarded(s, p);
    } else {
      assert HeldPage(s, d, b, p) && Guarded(s, HeldXid(s, d, b), p);
    }
  }

  lemma {:induction false} ReslottedWriter(s: State, t: State, c: nat, w: Writer)
    requires Inv(s) && Reslotted(s, t, c) && s.writer == Some(w)
    ensures WriterOk(t, w)
  {
    hide OnePlace;
    hide PendingAlone;
    hide Guarded;
    hide OneUse;
  }

  lemma {:induction false} ReslottedKept(s: State, t: State, c: nat)
    requires Inv(s) && Reslotted(s, t, c) && SlotOk(t, t.conns[c])
    ensures Inv(t)
  {
    hide OnePlace;
    hide PendingAlone;
    hide Guarded;
    hide OneUse;
    hide WriterOk;
    ReslottedPlaces(s, t, c);
    forall d, b, p | HeldPage(t, d, b, p) ensures Guarded(t, HeldXid(t, d, b), p) {
      ReslottedPage(s, t, c, d, b, p);
    }
    if s.writer.Some? {
      ReslottedWriter(s, t, c, s.writer.value);
    }
  }

  /** A step of the writer keeps page `p` in one place and one use, and does not reuse it before the readers found
      by the scan are past it. */
  ghost predicate Steady(s: State, w: Writer, t: State, p: nat)
    requires t.versions != [] && t.writer.Some?
  {
    && OnePlace(t, p) && OneUse(t.writer.value, p)
    && (forall xid | Guarded(s, xid, p) && (s.conns.Keys <= w.scanned ==> w.xmin <= xid) :: Guarded(t, xid, p))
  }

  /** The versions stay, and who holds which. */
  predicate SameHeld(s: State, t: State) {
    && t.versions == s.versions && t.hdrXid == s.hdrXid && t.conns.Keys == s.conns.Keys
    && forall c | c in s.conns :: t.conns[c].live == s.conns[c].live && t.conns[c].held == s.conns[c].held
  }

  /** Only the lists of `c` changed, and its slot if its owner is gone. */
  predicate Relisted(s: State, t: State, c: nat) {
    && t.versions == s.versions && t.hdrXid == s.hdrXid && c in s.conns && c in t.conns && t.conns == s.conns[c := t.conns[c]]
    && var was, now := s.conns[c], t.conns[c];
       && now == was.(slot := now.slot, pending := now.pending, kept := now.kept)
       && (if was.live then now.slot == was.slot && (now.kept == {} || now.kept == now.pending) else now.slot == 0 && now.kept == was.kept)
  }

  lemma {:induction false} RelistedSlots(s: State, t: State, c: nat)
    requires Relisted(s, t, c) && forall d | d in s.conns :: SlotOk(s, s.conns[d])
    ensures SameHeld(s, t) && forall d | d in t.conns :: SlotOk(t, t.conns[d])
  {
    forall d | d in t.conns ensures SlotOk(t, t.conns[d]) {
      assert SlotOk(s, s.conns[d]);
    }
  }

  lemma {:induction false} SameScanned(s: State, t: State, w: Writer, v: Writer)
    requires SameHeld(s, t) && Scanned(s, w) && v.xmin == w.xmin
    requires forall c | c in v.scanned && c !in w.scanned && c in s.conns :: !s.conns[c].live
    ensures Scanned(t, v)
  {
    forall c, b | c in v.scanned && c in t.conns && t.conns[c].live && b in t.conns[c].held && t.conns[c].held[b] < |t.versions|
      ensures v.xmin <= HeldXid(t, c, b)
    {
      assert HeldXid(t, c, b) == HeldXid(s, c, b);
    }
  }

  /** What the invariant says apart from pages. */
  ghost predicate Framed(s: State, t: State) {
    && t.writer.Some? && SameHeld(s, t) && Dates(t) && WriterOk(t, t.writer.value)
    && forall c | c in t.conns :: SlotOk(t, t.conns[c])
  }

  lemma {:induction false} PagesKept(s: State, w: Writer, t: State)
    requires Inv(s) && s.writer == Some(w) && Framed(s, t)
    requires (forall p :: Steady(s, w, t, p)) && forall d, p :: PendingAlone(t, d, p)
    ensures Inv(t)
  {
    hide OnePlace;
    hide OneUse;
    hide Guarded;
    hide PendingAlone;
    hide SlotOk;
    forall d, b, p | HeldPage(t, d, b, p) ensures Guarded(t, HeldXid(t, d, b), p) {
      assert HeldPage(s, d, b, p) && Guarded(s, HeldXid(s, d, b), p) && Steady(s, w, t, p);
    }
    forall p ensures OnePlace(t, p) && OneUse(t.writer.value, p) {
      assert Steady(s, w, t, p);
    }
  }

  /** A step that leaves the connections alone and takes no page from the pending lists. */
  lemma {:induction false} HandsKept(s: State, w: Writer, t: State)
    requires Inv(s) && s.writer == Some(w) && t.conns == s.conns && Framed(s, t)
    requires forall p :: Steady(s, w, t, p) && (Placed(t, p) ==> Placed(s, p))
    ensures Inv(t)
  {
    hide Steady;
    hide WriterOk;
    forall d, p ensures PendingAlone(t, d, p) {
      assert PendingAlone(s, d, p) && (Placed(t, p) ==> Placed(s, p));
    }
    PagesKept(s, w, t);
  }

  lemma {:induction false} ReadXidKept(s: State, c: nat)
    requires Inv(s) && CanReadXid(s, c)
    ensures Inv(DoReadXid(s, c))
  {
    var t := DoReadXid(s, c);
    hide OnePlace;
    hide PendingAlone;
    hide Guarded;
    hide WriterOk;
    hide OneUse;
    ReslottedKept(s, t, c);
  }

  lemma {:induction false} StoreXidKept(s: State, c: nat)
    requires Inv(s) && CanStoreXid(s, c)
    ensures Inv(DoStoreXid(s, c))
  {
    var t := DoStoreXid(s, c);
    hide OnePlace;
    hide PendingAlone;
    hide Guarded;
    hide WriterOk;
    hide OneUse;
    ReslottedKept(s, t, c);
  }

  lemma {:induction false} LoadRootKept(s: State, c: nat, second: bool)
    requires Inv(s) && CanLoadRoot(s, c, second)
    ensures Inv(DoLoadRoot(s, c, second))
  {
    var t := DoLoadRoot(s, c, second);
    hide OnePlace;
    hide PendingAlone;
    hide Guarded;
    hide WriterOk;
    hide OneUse;
    ReslottedKept(s, t, c);
  }

  lemma {:induction false} ReleaseKept(s: State, c: nat)
    requires Inv(s) && CanRelease(s, c)
    ensures Inv(DoRelease(s, c))
  {
    var t := DoRelease(s, c);
    hide OnePlace;
    hide PendingAlone;
    hide Guarded;
    hide WriterOk;
    hide OneUse;
    ReslottedKept(s, t, c);
  }

  lemma {:induction false} JoinKept(s: State, c: nat)
    requires Inv(s) && CanJoin(s, c)
    ensures Inv(DoJoin(s, c))
  {
    var t := DoJoin(s, c);
    hide OnePlace;
    hide PendingAlone;
    hide Guarded;
    hide WriterOk;
    hide OneUse;
    ReslottedKept(s, t, c);
  }

  lemma {:induction false} DieKept(s: State, c: nat)
    requires Inv(s) && CanDie(s, c)
    ensures Inv(DoDie(s, c))
  {
    var t := DoDie(s, c);
    hide OnePlace;
    hide PendingAlone;
    hide Guarded;
    hide WriterOk;
    hide OneUse;
    ReslottedKept(s, t, c);
  }

  lemma {:induction false} LockKept(s: State, c: nat)
    requires Inv(s) && CanLock(s, c)
    ensures Inv(DoLock(s, c))
  {
    var t := DoLock(s, c);
    forall p ensures OnePlace(t, p) {
      assert OnePlace(s, p);
    }
    forall d, p ensures PendingAlone(t, d, p) {
      assert PendingAlone(s, d, p);
    }
    forall d, b, p | HeldPage(t, d, b, p) ensures Guarded(t, HeldXid(t, d, b), p) {
      assert HeldPage(s, d, b, p) && Guarded(s, HeldXid(s, d, b), p) && OnePlace(s, p);
    }
  }

  lemma {:induction false} ClearActiveKept(s: State, w: Writer)
    requires Inv(s) && s.writer == Some(w) && CanClearActive(s, w)
    ensures Inv(DoClearActive(s, w))
  {
    var t := DoClearActive(s, w);
    hide SlotOk;
    forall p ensures Steady(s, w, t, p) && (Placed(t, p) ==> Placed(s, p)) {
      assert OnePlace(s, p) && OneUse(w, p);
    }
    HandsKept(s, w, t);
  }

  lemma {:induction false} RestoreKept(s: State, w: Writer)
    requires Inv(s) && s.writer == Some(w) && CanRestore(s, w)
    ensures Inv(DoRestore(s, w))
  {
    var t := DoRestore(s, w);
    hide SlotOk;
    forall p ensures Steady(s, w, t, p) && (Placed(t, p) ==> Placed(s, p)) {
      assert OnePlace(s, p) && OneUse(w, p);
    }
    HandsKept(s, w, t);
  }

  lemma {:induction false} ClearPendingPage(s: State, w: Writer, p: nat)
    requires Inv(s) && s.writer == Some(w) && CanClearPending(s, w)
    ensures var t := DoClearPending(s, w); Steady(s, w, t, p) && forall d :: PendingAlone(t, d, p)
  {
    var t := DoClearPending(s, w);
    assert OnePlace(s, p) && OneUse(w, p) && PendingAlone(s, w.conn, p);
    forall e | e in s.conns && Placed(s, p) ensures p !in s.conns[e].pending {
      assert PendingAlone(s, e, p);
    }
    forall d ensures PendingAlone(t, d, p) {
      assert PendingAlone(s, d, p);
    }
  }

  lemma {:induction false} ClearPendingFrame(s: State, w: Writer)
    requires Inv(s) && s.writer == Some(w) && CanClearPending(s, w)
    ensures Framed(s, DoClearPending(s, w))
  {
    hide PendingAlone;
    hide Guarded;
    hide OnePlace;
    hide OneUse;
    hide HeldPage;
    hide SlotOk;
    hide SameHeld;
    hide Scanned;
    var t := DoClearPending(s, w);
    RelistedSlots(s, t, w.conn);
    SameScanned(s, t, w, t.writer.value);
  }

  lemma {:induction false} ClearPendingKept(s: State, w: Writer)
    requires Inv(s) && s.writer == Some(w) && CanClearPending(s, w)
    ensures Inv(DoClearPending(s, w))
  {
    hide Inv;
    hide Steady;
    hide PendingAlone;
    var t := DoClearPending(s, w);
    ClearPendingFrame(s, w);
    forall p ensures Steady(s, w, t, p) {
      ClearPendingPage(s, w, p);
    }
    forall d, p ensures PendingAlone(t, d, p) {
      ClearPendingPage(s, w, p);
    }
    PagesKept(s, w, t);
  }

  lemma {:induction false} SetActiveKept(s: State, w: Writer, x: set<nat>)
    requires Inv(s) && s.writer == Some(w) && CanSetActive(s, w, x)
    ensures Inv(DoSetActive(s, w, x))
  {
    var t := DoSetActive(s, w, x);
    hide SlotOk;
    forall p ensures Steady(s, w, t, p) && (Placed(t, p) ==> Placed(s, p)) {
      assert OnePlace(s, p) && OneUse(w, p);
    }
    HandsKept(s, w, t);
  }

  lemma {:induction false} UseKept(s: State, w: Writer, p: nat)
    requires Inv(s) && s.writer == Some(w) && CanUse(s, w, p)
    ensures Inv(DoUse(s, w, p))
  {
    var t := DoUse(s, w, p);
    hide SlotOk;
    forall p ensures Steady(s, w, t, p) && (Placed(t, p) ==> Placed(s, p)) {
      assert OnePlace(s, p) && OneUse(w, p);
    }
    HandsKept(s, w, t);
  }

  lemma {:induction false} DiscardKept(s: State, w: Writer, p: nat)
    requires Inv(s) && s.writer == Some(w) && CanDiscard(s, w, p)
    ensures Inv(DoDiscard(s, w, p))
  {
    var t := DoDiscard(s, w, p);
    hide SlotOk;
    forall p ensures Steady(s, w, t, p) && (Placed(t, p) ==> Placed(s, p)) {
      assert OnePlace(s, p) && OneUse(w, p);
    }
    HandsKept(s, w, t);
  }

  lemma {:induction false} MarkActiveKept(s: State, w: Writer, x: set<nat>)
    requires Inv(s) && s.writer == Some(w) && CanMarkActive(s, w, x)
    ensures Inv(DoMarkActive(s, w, x))
  {
    var t := DoMarkActive(s, w, x);
    hide SlotOk;
    forall p ensures Steady(s, w, t, p) && (Placed(t, p) ==> Placed(s, p)) {
      assert OnePlace(s, p) && OneUse(w, p);
    }
    HandsKept(s, w, t);
  }

  lemma {:induction false} StartScanKept(s: State, w: Writer)
    requires Inv(s) && s.writer == Some(w) && CanStartScan(s, w)
    ensures Inv(DoStartScan(s, w))
  {
    var t := DoStartScan(s, w);
    hide SlotOk;
    forall p ensures Steady(s, w, t, p) && (Placed(t, p) ==> Placed(s, p)) {
      assert OnePlace(s, p) && OneUse(w, p);
    }
    HandsKept(s, w, t);
  }

  lemma {:induction false} ScanSlotKept(s: State, w: Writer, c: nat)
    requires Inv(s) && s.writer == Some(w) && CanScanSlot(s, w, c)
    ensures Inv(DoScanSlot(s, w, c))
  {
    var t := DoScanSlot(s, w, c);
    hide SlotOk;
    forall p ensures Steady(s, w, t, p) && (Placed(t, p) ==> Placed(s, p)) {
      assert OnePlace(s, p) && OneUse(w, p);
    }
    HandsKept(s, w, t);
  }

  lemma {:induction false} ScanDeadPage(s: State, w: Writer, c: nat, p: nat)
    requires Inv(s) && s.writer == Some(w) && CanScanDead(s, w, c)
    ensures var t := DoScanDead(s, w, c); Steady(s, w, t, p) && forall d :: PendingAlone(t, d, p)
  {
    var t := DoScanDead(s, w, c);
    assert OnePlace(s, p) && OneUse(w, p) && PendingAlone(s, c, p);
    forall e | e in s.conns && Placed(s, p) ensures p !in s.conns[e].pending {
      assert PendingAlone(s, e, p);
    }
    forall d ensures PendingAlone(t, d, p) {
      assert PendingAlone(s, d, p);
    }
  }

  lemma {:induction false} ScanDeadFrame(s: State, w: Writer, c: nat)
    requires Inv(s) && s.writer == Some(w) && CanScanDead(s, w, c)
    ensures Framed(s, DoScanDead(s, w, c))
  {
    hide PendingAlone;
    hide Guarded;
    hide OnePlace;
    hide OneUse;
    hide HeldPage;
    hide SlotOk;
    hide SameHeld;
    hide Scanned;
    var t := DoScanDead(s, w, c);
    RelistedSlots(s, t, c);
    SameScanned(s, t, w, t.writer.value);
  }

  lemma {:induction false} ScanDeadKept(s: State, w: Writer, c: nat)
    requires Inv(s) && s.writer == Some(w) && CanScanDead(s, w, c)
    ensures Inv(DoScanDead(s, w, c))
  {
    hide Inv;
    hide Steady;
    hide PendingAlone;
    var t := DoScanDead(s, w, c);
    ScanDeadFrame(s, w, c);
    forall p ensures Steady(s, w, t, p) {
      ScanDeadPage(s, w, c, p);
    }
    forall d, p ensures PendingAlone(t, d, p) {
      ScanDeadPage(s, w, c, p);
    }
    PagesKept(s, w, t);
  }

  lemma {:induction false} TakeKept(s: State, w: Writer, p: nat)
    requires Inv(s) && s.writer == Some(w) && CanTake(s, w, p)
    ensures Inv(DoTake(s, w, p))
  {
    var t := DoTake(s, w, p);
    hide SlotOk;
    forall p ensures Steady(s, w, t, p) && (Placed(t, p) ==> Placed(s, p)) {
      assert OnePlace(s, p) && OneUse(w, p);
    }
    HandsKept(s, w, t);
  }

  lemma {:induction false} RecycleKept(s: State, w: Writer, p: nat)
    requires Inv(s) && s.writer == Some(w) && CanRecycle(s, w, p)
    ensures Inv(DoRecycle(s, w, p))
  {
    var t := DoRecycle(s, w, p);
    hide SlotOk;
    forall p ensures Steady(s, w, t, p) && (Placed(t, p) ==> Placed(s, p)) {
      assert OnePlace(s, p) && OneUse(w, p);
    }
    HandsKept(s, w, t);
  }

  lemma {:induction false} GrowKept(s: State, w: Writer)
    requires Inv(s) && s.writer == Some(w) && CanGrow(s, w)
    ensures Inv(DoGrow(s, w))
  {
    var t := DoGrow(s, w);
    hide SlotOk;
    forall p ensures Steady(s, w, t, p) && (Placed(t, p) ==> Placed(s, p)) {
      assert OnePlace(s, p) && OneUse(w, p);
    }
    HandsKept(s, w, t);
  }

  lemma {:induction false} StoreStateKept(s: State, w: Writer, x: set<nat>)
    requires Inv(s) && s.writer == Some(w) && CanStoreState(s, w, x)
    ensures Inv(DoStoreState(s, w, x))
  {
    var t := DoStoreState(s, w, x);
    hide SlotOk;
    forall p ensures Steady(s, w, t, p) && (Placed(t, p) ==> Placed(s, p)) {
      assert OnePlace(s, p) && OneUse(w, p);
    }
    HandsKept(s, w, t);
  }

  lemma {:induction false} EndAllocKept(s: State, w: Writer, forChain: bool)
    requires Inv(s) && s.writer == Some(w) && CanEndAlloc(s, w, forChain)
    ensures Inv(DoEndAlloc(s, w, forChain))
  {
    var t := DoEndAlloc(s, w, forChain);
    hide SlotOk;
    forall p ensures Steady(s, w, t, p) && (Placed(t, p) ==> Placed(s, p)) {
      assert OnePlace(s, p) && OneUse(w, p);
    }
    HandsKept(s, w, t);
  }

  lemma {:induction false} LinkKept(s: State, w: Writer, p: nat)
    requires Inv(s) && s.writer == Some(w) && CanLink(s, w, p)
    ensures Inv(DoLink(s, w, p))
  {
    var t := DoLink(s, w, p);
    hide SlotOk;
    forall p ensures Steady(s, w, t, p) && (Placed(t, p) ==> Placed(s, p)) {
      assert OnePlace(s, p) && OneUse(w, p);
    }
    HandsKept(s, w, t);
  }

  lemma {:induction false} OpenListKept(s: State, w: Writer, x: set<nat>)
    requires Inv(s) && s.writer == Some(w) && CanOpenList(s, w, x)
    ensures Inv(DoOpenList(s, w, x))
  {
    var t := DoOpenList(s, w, x);
    hide SlotOk;
    forall p ensures Steady(s, w, t, p) && (Placed(t, p) ==> Placed(s, p)) {
      assert OnePlace(s, p) && OneUse(w, p);
    }
    HandsKept(s, w, t);
  }

  lemma {:induction false} StoreHeaderKept(s: State, w: Writer)
    requires Inv(s) && s.writer == Some(w) && CanStoreHeader(s, w)
    ensures Inv(DoStoreHeader(s, w))
  {
    var t := DoStoreHeader(s, w);
    hide SlotOk;
    forall p ensures Steady(s, w, t, p) && (Placed(t, p) ==> Placed(s, p)) {
      assert OnePlace(s, p) && OneUse(w, p);
    }
    HandsKept(s, w, t);
  }

  lemma {:induction false} ListKept(s: State, w: Writer, p: nat, xid: nat)
    requires Inv(s) && s.writer == Some(w) && CanList(s, w, p, xid)
    ensures Inv(DoList(s, w, p, xid))
  {
    var t := DoList(s, w, p, xid);
    hide SlotOk;
    forall p ensures Steady(s, w, t, p) && (Placed(t, p) ==> Placed(s, p)) {
      assert OnePlace(s, p) && OneUse(w, p);
    }
    HandsKept(s, w, t);
  }

  lemma {:induction false} DropKept(s: State, w: Writer)
    requires Inv(s) && s.writer == Some(w) && CanDrop(s, w)
    ensures Inv(DoDrop(s, w))
  {
    var t := DoDrop(s, w);
    hide SlotOk;
    forall p ensures Steady(s, w, t, p) && (Placed(t, p) ==> Placed(s, p)) {
      assert OnePlace(s, p) && OneUse(w, p);
    }
    HandsKept(s, w, t);
  }

  lemma {:induction false} FlushKept(s: State, w: Writer)
    requires Inv(s) && s.writer == Some(w) && CanFlush(s, w)
    ensures Inv(DoFlush(s, w))
  {
    var t := DoFlush(s, w);
    hide SlotOk;
    forall p ensures Steady(s, w, t, p) && (Placed(t, p) ==> Placed(s, p)) {
      assert OnePlace(s, p) && OneUse(w, p);
    }
    HandsKept(s, w, t);
  }

  lemma {:induction false} PublishRootsKept(s: State, w: Writer, x: set<nat>, y: set<nat>)
    requires Inv(s) && s.writer == Some(w) && CanPublishRoots(s, w, x, y)
    ensures Inv(DoPublishRoots(s, w, x, y))
  {
    var t := DoPublishRoots(s, w, x, y);
    forall p ensures OnePlace(t, p) && OneUse(t.writer.value, p) {
      assert OnePlace(s, p) && OneUse(w, p);
    }
    forall d, p ensures PendingAlone(t, d, p) {
      assert PendingAlone(s, d, p);
    }
    forall d, b, p | HeldPage(t, d, b, p) ensures Guarded(t, HeldXid(t, d, b), p) {
      assert HeldPage(s, d, b, p) && Guarded(s, HeldXid(s, d, b), p) && OnePlace(s, p);
    }
  }

  lemma {:induction false} PublishXidKept(s: State, w: Writer)
    requires Inv(s) && s.writer == Some(w) && CanPublishXid(s, w)
    ensures Inv(DoPublishXid(s, w))
  {
    var t := DoPublishXid(s, w);
    forall p ensures OnePlace(t, p) && OneUse(t.writer.value, p) {
      assert OnePlace(s, p) && OneUse(w, p);
    }
    forall d, p ensures PendingAlone(t, d, p) {
      assert PendingAlone(s, d, p);
    }
    forall d, b, p | HeldPage(t, d, b, p) ensures Guarded(t, HeldXid(t, d, b), p) {
      assert HeldPage(s, d, b, p) && Guarded(s, HeldXid(s, d, b), p) && OnePlace(s, p);
    }
  }

  lemma {:induction false} FreedKept(s: State, w: Writer)
    requires Inv(s) && s.writer == Some(w) && CanFreed(s, w)
    ensures Inv(DoFreed(s, w))
  {
    var t := DoFreed(s, w);
    hide SlotOk;
    forall p ensures Steady(s, w, t, p) && (Placed(t, p) ==> Placed(s, p)) {
      assert OnePlace(s, p) && OneUse(w, p);
    }
    HandsKept(s, w, t);
  }

  lemma {:induction false} CancelKept(s: State, w: Writer)
    requires Inv(s) && s.writer == Some(w) && CanCancel(s, w)
    ensures Inv(DoCancel(s, w))
  {
    var t := DoCancel(s, w);
    hide SlotOk;
    forall p ensures Steady(s, w, t, p) && (Placed(t, p) ==> Placed(s, p)) {
      assert OnePlace(s, p) && OneUse(w, p);
    }
    HandsKept(s, w, t);
  }

  lemma {:induction false} KeepPage(s: State, w: Writer, k: set<nat>, p: nat)
    requires Inv(s) && s.writer == Some(w) && CanKeep(s, w, k)
    ensures var t := DoKeep(s, w, k); Steady(s, w, t, p) && forall d :: PendingAlone(t, d, p)
  {
    var t := DoKeep(s, w, k);
    assert OnePlace(s, p) && OneUse(w, p) && PendingAlone(s, w.conn, p);
    forall e | e in s.conns && Placed(s, p) ensures p !in s.conns[e].pending {
      assert PendingAlone(s, e, p);
    }
    forall d ensures PendingAlone(t, d, p) {
      assert PendingAlone(s, d, p);
    }
  }

  lemma {:induction false} KeepFrame(s: State, w: Writer, k: set<nat>)
    requires Inv(s) && s.writer == Some(w) && CanKeep(s, w, k)
    ensures Framed(s, DoKeep(s, w, k))
  {
    hide PendingAlone;
    hide Guarded;
    hide OnePlace;
    hide OneUse;
    hide HeldPage;
    hide SlotOk;
    hide SameHeld;
    hide Scanned;
    var t := DoKeep(s, w, k);
    RelistedSlots(s, t, w.conn);
    SameScanned(s, t, w, t.writer.value);
  }

  lemma {:induction false} KeepKept(s: State, w: Writer, k: set<nat>)
    requires Inv(s) && s.writer == Some(w) && CanKeep(s, w, k)
    ensures Inv(DoKeep(s, w, k))
  {
    hide Inv;
    hide Steady;
    hide PendingAlone;
    var t := DoKeep(s, w, k);
    KeepFrame(s, w, k);
    forall p ensures Steady(s, w, t, p) {
      KeepPage(s, w, k, p);
    }
    forall d, p ensures PendingAlone(t, d, p) {
      KeepPage(s, w, k, p);
    }
    PagesKept(s, w, t);
  }

  lemma {:induction false} ReadFlushKept(s: State, w: Writer)
    requires Inv(s) && s.writer == Some(w) && CanReadFlush(s, w)
    ensures Inv(DoReadFlush(s, w))
  {
    var t := DoReadFlush(s, w);
    hide SlotOk;
    forall p ensures Steady(s, w, t, p) && (Placed(t, p) ==> Placed(s, p)) {
      assert OnePlace(s, p) && OneUse(w, p);
    }
    HandsKept(s, w, t);
  }

  lemma {:induction false} ReadKeepPage(s: State, w: Writer, k: set<nat>, p: nat)
    requires Inv(s) && s.writer == Some(w) && CanReadKeep(s, w, k)
    ensures var t := DoReadKeep(s, w, k); Steady(s, w, t, p) && forall d :: PendingAlone(t, d, p)
  {
    var t := DoReadKeep(s, w, k);
    assert OnePlace(s, p) && OneUse(w, p) && PendingAlone(s, w.conn, p);
    forall e | e in s.conns && Placed(s, p) ensures p !in s.conns[e].pending {
      assert PendingAlone(s, e, p);
    }
    forall d ensures PendingAlone(t, d, p) {
      assert PendingAlone(s, d, p);
    }
  }

  lemma {:induction false} ReadKeepFrame(s: State, w: Writer, k: set<nat>)
    requires Inv(s) && s.writer == Some(w) && CanReadKeep(s, w, k)
    ensures Framed(s, DoReadKeep(s, w, k))
  {
    hide PendingAlone;
    hide Guarded;
    hide OnePlace;
    hide OneUse;
    hide HeldPage;
    hide SlotOk;
    hide SameHeld;
    hide Scanned;
    var t := DoReadKeep(s, w, k);
    RelistedSlots(s, t, w.conn);
    SameScanned(s, t, w, t.writer.value);
  }

  lemma {:induction false} ReadKeepKept(s: State, w: Writer, k: set<nat>)
    requires Inv(s) && s.writer == Some(w) && CanReadKeep(s, w, k)
    ensures Inv(DoReadKeep(s, w, k))
  {
    hide Inv;
    hide Steady;
    hide PendingAlone;
    var t := DoReadKeep(s, w, k);
    ReadKeepFrame(s, w, k);
    forall p ensures Steady(s, w, t, p) {
      ReadKeepPage(s, w, k, p);
    }
    forall d, p ensures PendingAlone(t, d, p) {
      ReadKeepPage(s, w, k, p);
    }
    PagesKept(s, w, t);
  }

  lemma {:induction false} UnlockKept(s: State, w: Writer)
    requires Inv(s) && s.writer == Some(w) && CanUnlock(s, w)
    ensures Inv(DoUnlock(s, w))
  {
    var t := DoUnlock(s, w);
    forall p ensures OnePlace(t, p) {
      assert OnePlace(s, p);
    }
    forall d, p ensures PendingAlone(t, d, p) {
      assert PendingAlone(s, d, p);
    }
    forall d, b, p | HeldPage(t, d, b, p) ensures Guarded(t, HeldXid(t, d, b), p) {
      assert HeldPage(s, d, b, p) && Guarded(s, HeldXid(s, d, b), p) && OnePlace(s, p);
    }
  }

  lemma {:induction false} CrashKept(s: State, w: Writer)
    requires Inv(s) && s.writer == Some(w) && CanCrash(s, w)
    ensures Inv(DoCrash(s, w))
  {
    var t := DoCrash(s, w);
    forall p ensures OnePlace(t, p) {
      assert OnePlace(s, p);
    }
    forall d, p ensures PendingAlone(t, d, p) {
      assert PendingAlone(s, d, p);
    }
    forall d, b, p | HeldPage(t, d, b, p) ensures Guarded(t, HeldXid(t, d, b), p) {
      assert HeldPage(s, d, b, p) && Guarded(s, HeldXid(s, d, b), p) && OnePlace(s, p);
    }
  }

  lemma {:induction false} ConnKept(s: State, a: ConnStep)
    requires Inv(s) && ConnEnabled(s, a)
    ensures Inv(ConnApply(s, a))
  {
    hide Inv;
    match a {
      case ReadXid(c) => ReadXidKept(s, c);
      case StoreXid(c) => StoreXidKept(s, c);
      case LoadRoot(c, second) => LoadRootKept(s, c, second);
      case Release(c) => ReleaseKept(s, c);
      case Join(c) => JoinKept(s, c);
      case Die(c) => DieKept(s, c);
      case Lock(c) => LockKept(s, c);
    }
  }

  lemma {:induction false} TxnKept(s: State, w: Writer, a: TxnStep)
    requires Inv(s) && s.writer == Some(w) && TxnEnabled(s, w, a)
    ensures Inv(TxnApply(s, w, a))
  {
    hide Inv;
    match a {
      case ClearActive => ClearActiveKept(s, w);
      case Restore => RestoreKept(s, w);
      case ClearPending => ClearPendingKept(s, w);
      case SetActive(x) => SetActiveKept(s, w, x);
      case Use(p) => UseKept(s, w, p);
      case Discard(p) => DiscardKept(s, w, p);
      case MarkActive(x) => MarkActiveKept(s, w, x);
      case Flush => FlushKept(s, w);
      case PublishRoots(x, y) => PublishRootsKept(s, w, x, y);
      case PublishXid => PublishXidKept(s, w);
      case Freed => FreedKept(s, w);
      case Cancel => CancelKept(s, w);
      case Keep(k) => KeepKept(s, w, k);
      case ReadFlush => ReadFlushKept(s, w);
      case ReadKeep(k) => ReadKeepKept(s, w, k);
      case Unlock => UnlockKept(s, w);
      case Crash => CrashKept(s, w);
    }
  }

  lemma {:induction false} AllocKept(s: State, w: Writer, a: AllocStep)
    requires Inv(s) && s.writer == Some(w) && AllocEnabled(s, w, a)
    ensures Inv(AllocApply(s, w, a))
  {
    hide Inv;
    match a {
      case StartScan => StartScanKept(s, w);
      case ScanSlot(c) => ScanSlotKept(s, w, c);
      case ScanDead(c) => ScanDeadKept(s, w, c);
      case Take(p) => TakeKept(s, w, p);
      case Recycle(p) => RecycleKept(s, w, p);
      case Grow => GrowKept(s, w);
      case StoreState(x) => StoreStateKept(s, w, x);
      case EndAlloc(forChain) => EndAllocKept(s, w, forChain);
      case Link(p) => LinkKept(s, w, p);
      case OpenList(x) => OpenListKept(s, w, x);
      case StoreHeader => StoreHeaderKept(s, w);
      case List(p, xid) => ListKept(s, w, p, xid);
      case Drop => DropKept(s, w);
    }
  }

  /** Every step keeps the invariant. */
  lemma {:induction false} StepKept(s: State, a: Action)
    requires Inv(s) && Enabled(s, a)
    ensures Inv(Apply(s, a))
  {
    hide Inv;
    hide ConnEnabled;
    hide TxnEnabled;
    hide AllocEnabled;
    hide ConnApply;
    hide TxnApply;
    hide AllocApply;
    match a {
      case ByConn(c) => ConnKept(s, c);
      case ByTxn(x) => TxnKept(s, s.writer.value, x);
      case ByAlloc(x) => AllocKept(s, s.writer.value, x);
    }
  }

  // ---- whole runs

  /** A new index: no trees, one gc page, everything else unused. */
  predicate Init(s: State) {
    && s.hdrXid == 1 && s.versions == [Version(1, {}, {})] && s.free == map[] && s.active == {} && s.stale == {} && s.writer == None
    && (forall p | p in s.chain :: p < s.tail)
    && (forall c | c in s.conns :: s.conns[c] == Conn(false, 0, None, map[], {}, {}))
  }

  lemma {:induction false} InitKept(s: State)
    requires Init(s)
    ensures Inv(s)
  {
  }

  ghost predicate Possible(s: State, acts: seq<Action>)
    decreases |acts|
  {
    acts == [] || (Enabled(s, acts[0]) && Possible(Apply(s, acts[0]), acts[1..]))
  }

  ghost function After(s: State, acts: seq<Action>): State
    requires Possible(s, acts)
    decreases |acts|
  {
    if acts == [] then s else After(Apply(s, acts[0]), acts[1..])
  }

  lemma {:induction false} RunKept(s: State, acts: seq<Action>)
    requires Inv(s) && Possible(s, acts)
    ensures Inv(After(s, acts))
    decreases |acts|
  {
    hide Inv;
    if acts != [] {
      StepKept(s, acts[0]);
      RunKept(Apply(s, acts[0]), acts[1..]);
    }
  }

  /** However readers, the writer and crashes interleave, no page that ed_alloc is about to hand out, that the
      writer may write to, or that the gc chain is made of, is reachable from a root a live reader holds. */
  lemma {:induction false} ReadersSafe(s: State, acts: seq<Action>, c: nat, b: bool, p: nat)
    requires Init(s) && Possible(s, acts) && HeldPage(After(s, acts), c, b, p)
    ensures var t := After(s, acts);
            && p !in t.chain && p !in t.active && p < t.tail
            && (t.writer.Some? ==>
                  var w := t.writer.value; p !in w.taken + w.grown && p !in w.pg + w.used + w.spare)
  {
    InitKept(s);
    RunKept(s, acts);
    assert Guarded(After(s, acts), HeldXid(After(s, acts), c, b), p);
  }

  /** The places the file itself records for a page, apart from a list being opened, */
  function Recorded(s: State, p: nat): nat
    requires s.versions != []
  {
    (if p in Current(s).first then 1 else 0) + (if p in Current(s).second then 1 else 0)
    + (if p in s.free then 1 else 0) + (if p in s.chain then 1 else 0) + (if p in s.active then 1 else 0) + (if p >= s.tail then 1 else 0)
  }

  /** and all of them. */
  function Places(s: State, p: nat): nat
    requires s.versions != []
  {
    Recorded(s, p) + if p in s.stale then 1 else 0
  }

  /** Stopped at any point, the file records each page in at most one place: a tree, a free list, the gc chain,
      the active list, one pending list or the unused end. Pages may be lost; one is recorded twice if and only if
      a list is being opened over stale bytes that name it and it is recorded elsewhere. */
  lemma {:induction false} NeverShared(s: State, acts: seq<Action>, p: nat)
    requires Init(s) && Possible(s, acts)
    ensures var t := After(s, acts);
            && t.versions != [] && Recorded(t, p) <= 1 && (Places(t, p) <= 1 <==> p !in t.stale || Recorded(t, p) == 0)
            && (forall c | c in t.conns && p in t.conns[c].pending ::
                  Recorded(t, p) == 0 && forall d | d in t.conns && d != c :: p !in t.conns[d].pending)
  {
    InitKept(s);
    RunKept(s, acts);
    var t := After(s, acts);
    assert OnePlace(t, p);
    forall c | c in t.conns && p in t.conns[c].pending
      ensures Recorded(t, p) == 0 && forall d | d in t.conns && d != c :: p !in t.conns[d].pending
    {
      assert PendingAlone(t, c, p);
    }
  }

  // ---- no page is lost but where the steps say so

  /** The state still has the page: in a place, or in some pending list. */
  predicate Known(s: State, p: nat)
    requires s.versions != []
  {
    Placed(s, p) || exists c | c in s.conns :: p in s.conns[c].pending
  }

  /** The pages a step loses: what the writer has in hand and not in the active list when it ends, what a free that
      fails has in hand, what a dead slot lists as pending, and the active list of an abandoned transaction when one
      that only read is closed. */
  function Lost(s: State, a: Action): set<nat>
    requires Enabled(s, a)
  {
    match a
    case ByConn(_) => {}
    case ByTxn(x) =>
      var w := s.writer.value;
      if x.Crash? then (w.pg + w.used + w.spare + w.grown + w.freeing) - s.active
      else if x.Restore? then w.spare + w.grown
      else if x.ReadFlush? then s.active
      else {}
    case ByAlloc(x) =>
      var w := s.writer.value;
      if x.Drop? then w.freeing + w.spare + w.grown
      else if x.ScanDead? then s.conns[x.c].pending
      else {}
  }

  lemma {:induction false} SameKnown(s: State, t: State, p: nat)
    requires s.versions != [] && t.versions != [] && t.conns.Keys == s.conns.Keys
    requires forall c | c in s.conns :: t.conns[c].pending == s.conns[c].pending
    ensures (Placed(t, p) <==> Placed(s, p)) ==> (Known(t, p) <==> Known(s, p))
  {
    hide Placed;
  }

  lemma {:induction false} ConnKnown(s: State, a: ConnStep, p: nat)
    requires Inv(s) && ConnEnabled(s, a)
    ensures ConnApply(s, a).versions != [] && (Known(ConnApply(s, a), p) <==> Known(s, p))
  {
    hide Known;
    hide Inv;
    assert s.versions != [] by {
      Nonempty(s);
    }
    SameKnown(s, ConnApply(s, a), p);
  }

  lemma {:induction false} Nonempty(s: State)
    requires Inv(s)
    ensures s.versions != []
  {
  }

  lemma {:induction false} AllocKnown(s: State, w: Writer, a: AllocStep, p: nat)
    requires Inv(s) && s.writer == Some(w) && AllocEnabled(s, w, a)
    ensures var t := AllocApply(s, w, a);
            t.versions != [] && (Placed(t, p) <==> Placed(s, p) && !(a.Drop? && p in w.freeing + w.spare + w.grown))
  {
    assert OnePlace(s, p) && OneUse(w, p);
  }

  /** The steps of a transaction that leave the pending lists alone. */
  lemma {:induction false} TxnPlaced(s: State, w: Writer, a: TxnStep, p: nat)
    requires Inv(s) && s.writer == Some(w) && s.stale == {} && TxnEnabled(s, w, a) && !a.ClearPending? && !a.Keep? && !a.ReadKeep?
    ensures var t, lost := TxnApply(s, w, a), Lost(s, ByTxn(a));
            && t.versions != [] && (Placed(t, p) <==> Placed(s, p) && p !in lost) && (p in lost ==> Placed(s, p))
  {
    assert OnePlace(s, p) && OneUse(w, p);
  }

  /** A page that a connection lists as pending is in no place. */
  lemma {:induction false} PendingApart(s: State, p: nat)
    requires Inv(s) && Placed(s, p)
    ensures forall c | c in s.conns :: p !in s.conns[c].pending
  {
    forall c | c in s.conns ensures p !in s.conns[c].pending {
      assert PendingAlone(s, c, p);
    }
  }

  /** A step that moves pages between the writer's hands and the pending list of its connection. */
  lemma {:induction false} MovedKnown(s: State, t: State, c: nat, p: nat)
    requires s.versions != [] && t.versions != [] && c in s.conns && c in t.conns && t.conns == s.conns[c := t.conns[c]]
    requires Placed(t, p) || p in t.conns[c].pending <==> Placed(s, p) || p in s.conns[c].pending
    ensures Known(t, p) <==> Known(s, p)
  {
    hide Placed;
    if Known(s, p) && !Placed(s, p) && p !in s.conns[c].pending {
      var d :| d in s.conns && p in s.conns[d].pending;
      assert t.conns[d] == s.conns[d];
    }
    if Known(t, p) && !Placed(t, p) && p !in t.conns[c].pending {
      var d :| d in t.conns && p in t.conns[d].pending;
      assert t.conns[d] == s.conns[d];
    }
  }

  lemma {:induction false} TxnMoved(s: State, w: Writer, a: TxnStep, p: nat)
    requires Inv(s) && s.writer == Some(w) && s.stale == {} && TxnEnabled(s, w, a) && (a.ClearPending? || a.Keep? || a.ReadKeep?)
    ensures TxnApply(s, w, a).versions != [] && (Known(TxnApply(s, w, a), p) <==> Known(s, p))
  {
    hide Known;
    assert OnePlace(s, p) && OneUse(w, p) && PendingAlone(s, w.conn, p);
    MovedKnown(s, TxnApply(s, w, a), w.conn, p);
  }

  lemma {:induction false} DeadKnown(s: State, w: Writer, c: nat, p: nat)
    requires Inv(s) && s.writer == Some(w) && CanScanDead(s, w, c)
    ensures var t := DoScanDead(s, w, c);
            && t.versions != [] && (Known(t, p) <==> Known(s, p) && p !in s.conns[c].pending) && (p in s.conns[c].pending ==> Known(s, p))
  {
    hide Placed;
    var t := DoScanDead(s, w, c);
    assert Placed(t, p) <==> Placed(s, p) by {
      AllocKnown(s, w, ScanDead(c), p);
    }
    assert PendingAlone(s, c, p);
    if Known(s, p) && !Placed(s, p) && p !in s.conns[c].pending {
      var d :| d in s.conns && p in s.conns[d].pending;
      assert t.conns[d] == s.conns[d];
    }
    if Known(t, p) && !Placed(t, p) {
      var d :| d in t.conns && p in t.conns[d].pending;
      assert t.conns[d] == s.conns[d];
    }
  }

  lemma {:induction false} AllocStepKnown(s: State, w: Writer, a: AllocStep, p: nat)
    requires Inv(s) && s.writer == Some(w) && (s.stale == {} || a.StoreHeader?) && AllocEnabled(s, w, a)
    ensures var t, lost := AllocApply(s, w, a), Lost(s, ByAlloc(a));
            t.versions != [] && (Known(t, p) <==> Known(s, p) && p !in lost) && (p in lost ==> Known(s, p))
  {
    if a.ScanDead? {
      DeadKnown(s, w, a.c, p);
    } else {
      hide Inv;
      hide Placed;
      hide Known;
      AllocKnown(s, w, a, p);
      AllocPending(s, w, a);
      AllocLost(s, w, a, p);
      PlacedKnown(s, AllocApply(s, w, a), p, Lost(s, ByAlloc(a)));
    }
  }

  lemma {:induction false} AllocPending(s: State, w: Writer, a: AllocStep)
    requires AllocEnabled(s, w, a) && !a.ScanDead?
    ensures AllocApply(s, w, a).conns == s.conns
  {
  }

  lemma {:induction false} AllocLost(s: State, w: Writer, a: AllocStep, p: nat)
    requires s.writer == Some(w) && s.versions != [] && (s.stale == {} || a.StoreHeader?) && AllocEnabled(s, w, a) && !a.ScanDead?
    ensures (p in Lost(s, ByAlloc(a)) <==> a.Drop? && p in w.freeing + w.spare + w.grown) && (p in Lost(s, ByAlloc(a)) ==> Placed(s, p))
  {
  }

  lemma {:induction false} PlacedKnown(s: State, t: State, p: nat, lost: set<nat>)
    requires Inv(s) && t.versions != [] && t.conns.Keys == s.conns.Keys
    requires forall c | c in s.conns :: t.conns[c].pending == s.conns[c].pending
    requires (Placed(t, p) <==> Placed(s, p) && p !in lost) && (p in lost ==> Placed(s, p))
    ensures (Known(t, p) <==> Known(s, p) && p !in lost) && (p in lost ==> Known(s, p))
  {
    hide Placed;
    if Placed(s, p) {
      PendingApart(s, p);
    } else {
      SameKnown(s, t, p);
    }
  }

  lemma {:induction false} TxnStepKnown(s: State, w: Writer, a: TxnStep, p: nat)
    requires Inv(s) && s.writer == Some(w) && s.stale == {} && TxnEnabled(s, w, a)
    ensures var t, lost := TxnApply(s, w, a), Lost(s, ByTxn(a));
            t.versions != [] && (Known(t, p) <==> Known(s, p) && p !in lost) && (p in lost ==> Known(s, p))
  {
    if a.ClearPending? || a.Keep? || a.ReadKeep? {
      TxnMoved(s, w, a, p);
    } else {
      hide Inv;
      hide Placed;
      hide Known;
      TxnPlaced(s, w, a, p);
      TxnPending(s, w, a);
      PlacedKnown(s, TxnApply(s, w, a), p, Lost(s, ByTxn(a)));
    }
  }

  lemma {:induction false} TxnPending(s: State, w: Writer, a: TxnStep)
    requires TxnEnabled(s, w, a) && !a.ClearPending? && !a.Keep? && !a.ReadKeep?
    ensures var t := TxnApply(s, w, a);
            t.conns.Keys == s.conns.Keys && forall c | c in s.conns :: t.conns[c].pending == s.conns[c].pending
  {
  }

  /** After a step the state has exactly the pages it had, without those the step loses. */
  lemma {:induction false} StepKnown(s: State, a: Action, p: nat)
    requires Inv(s) && Enabled(s, a)
    ensures s.versions != [] && Apply(s, a).versions != []
    ensures (Known(Apply(s, a), p) <==> Known(s, p) && p !in Lost(s, a)) && (p in Lost(s, a) ==> Known(s, p))
  {
    hide Known;
    hide Inv;
    hide ConnEnabled;
    hide TxnEnabled;
    hide AllocEnabled;
    hide ConnApply;
    hide TxnApply;
    hide AllocApply;
    Nonempty(s);
    match a {
      case ByConn(c) => ConnKnown(s, c, p);
      case ByTxn(x) => TxnStepKnown(s, s.writer.value, x, p);
      case ByAlloc(x) => AllocStepKnown(s, s.writer.value, x, p);
    }
  }

  /** All that a run loses. */
  ghost function LostIn(s: State, acts: seq<Action>): set<nat>
    requires Possible(s, acts)
    decreases |acts|
  {
    if acts == [] then {} else Lost(s, acts[0]) + LostIn(Apply(s, acts[0]), acts[1..])
  }

  /** Over every run the state has exactly the pages it had, without those the steps named by `Lost` lose. */
  lemma {:induction false} Conserved(s: State, acts: seq<Action>, p: nat)
    requires Inv(s) && Possible(s, acts)
    ensures s.versions != [] && After(s, acts).versions != []
    ensures Known(After(s, acts), p) <==> Known(s, p) && p !in LostIn(s, acts)
    decreases |acts|
  {
    hide Known;
    hide Inv;
    hide Enabled;
    hide Apply;
    hide Lost;
    Nonempty(s);
    if acts != [] {
      StepKnown(s, acts[0], p);
      StepKept(s, acts[0]);
      Conserved(Apply(s, acts[0]), acts[1..], p);
    }
  }

  /** Without crashes, failed frees, slots wiped and closes of readers that found an abandoned transaction, no page is
      lost at all. */
  lemma {:induction false} NoneLost(s: State, acts: seq<Action>, p: nat)
    requires Inv(s) && Possible(s, acts)
    requires forall a | a in acts ::
               && (a.ByTxn? ==> !a.txn.Crash? && !a.txn.Restore? && !a.txn.ReadFlush?)
               && (a.ByAlloc? ==> !a.alloc.Drop? && !a.alloc.ScanDead?)
    ensures s.versions != [] && After(s, acts).versions != [] && (Known(After(s, acts), p) <==> Known(s, p))
    decreases |acts|
  {
    hide Known;
    hide Inv;
    hide Enabled;
    hide Apply;
    Nonempty(s);
    if acts != [] {
      assert acts[0] in acts && forall a | a in acts[1..] :: a in acts;
      StepKnown(s, acts[0], p);
      StepKept(s, acts[0]);
      NoneLost(Apply(s, acts[0]), acts[1..], p);
    }
  }

  // ---- what a commit frees

  /** While the writer of `xid` frees what it discarded, each page is still in its hands or listed under `xid` or later. */
  predicate Freeing(s: State, xid: nat, p: nat) {
    && s.writer.Some? && s.writer.value.phase in {Rooted, Dated} && s.writer.value.xid == xid && s.writer.value.tag == xid
    && (s.writer.value.phase == Dated ==> s.hdrXid == xid)
    && (p in s.writer.value.freeing || (p in s.free && s.free[p] >= xid && p !in s.writer.value.taken))
  }

  lemma {:induction false} FreeingAlloc(s: State, x: AllocStep, xid: nat, p: nat)
    requires Inv(s) && Enabled(s, ByAlloc(x)) && Freeing(s, xid, p) && xid > 0 && !x.Drop?
    ensures Freeing(Apply(s, ByAlloc(x)), xid, p)
  {
    assert OnePlace(s, p);
    hide PendingAlone;
    hide Guarded;
    hide OneUse;
    hide OnePlace;
    hide HeldPage;
    hide SlotOk;
  }

  lemma {:induction false} FreeingKept(s: State, a: Action, xid: nat, p: nat)
    requires Inv(s) && Enabled(s, a) && Freeing(s, xid, p) && xid > 0
    requires a.ByConn? || a == ByTxn(PublishXid) || (a.ByAlloc? && !a.alloc.Drop?)
    ensures Freeing(Apply(s, a), xid, p)
  {
    hide Inv;
    hide AllocApply;
    hide AllocEnabled;
    if a.ByAlloc? {
      FreeingAlloc(s, a.alloc, xid, p);
    }
  }

  lemma {:induction false} FreeingRun(s: State, acts: seq<Action>, xid: nat, p: nat)
    requires Inv(s) && Possible(s, acts) && Freeing(s, xid, p) && xid > 0
    requires forall a | a in acts :: a.ByConn? || a == ByTxn(PublishXid) || (a.ByAlloc? && !a.alloc.Drop?)
    ensures Freeing(After(s, acts), xid, p)
    decreases |acts|
  {
    hide Inv;
    hide Enabled;
    hide Apply;
    hide Freeing;
    if acts != [] {
      assert acts[0] in acts && forall a | a in acts[1..] :: a in acts;
      FreeingKept(s, acts[0], xid, p);
      StepKept(s, acts[0]);
      FreeingRun(Apply(s, acts[0]), acts[1..], xid, p);
    }
  }

  /** Once the free after a commit has ended, each page of the version before that is not in the new one is listed
      under the transaction that committed, or a later one. */
  lemma {:induction false} CommitFrees(s: State, x: set<nat>, y: set<nat>, acts: seq<Action>, p: nat)
    requires Inv(s) && Enabled(s, ByTxn(PublishRoots(x, y))) && Possible(Apply(s, ByTxn(PublishRoots(x, y))), acts)
    requires forall a | a in acts :: a.ByConn? || a == ByTxn(PublishXid) || (a.ByAlloc? && !a.alloc.Drop?)
    requires p in Tree(s) && p !in x + y
    ensures var t := After(Apply(s, ByTxn(PublishRoots(x, y))), acts);
            && t.writer.Some? && t.writer.value.xid == s.hdrXid + 1
            && (p in t.writer.value.freeing || (p in t.free && t.free[p] >= s.hdrXid + 1))
  {
    hide PendingAlone;
    hide Guarded;
    hide OneUse;
    var a := ByTxn(PublishRoots(x, y));
    StepKept(s, a);
    assert OnePlace(s, p);
    assert Freeing(Apply(s, a), s.hdrXid + 1, p);
    FreeingRun(Apply(s, a), acts, s.hdrXid + 1, p);
  }

  /** No stale pages are named but between the two steps that open a list: without a writer there are none. */
  ghost predicate Settled(s: State) {
    s.stale != {} ==> s.writer.Some? && Busy(s.writer.value)
  }

  lemma {:induction false} StepSettled(s: State, a: Action)
    requires Settled(s) && Enabled(s, a)
    ensures Settled(Apply(s, a))
  {
  }

  /** So whoever takes the lock finds each page in one place. */
  lemma {:induction false} UnlockedSettled(s: State, acts: seq<Action>)
    requires Settled(s) && Possible(s, acts)
    ensures Settled(After(s, acts)) && (After(s, acts).writer.None? ==> After(s, acts).stale == {})
    decreases |acts|
  {
    hide Enabled;
    hide Apply;
    hide Settled;
    if acts != [] {
      StepSettled(s, acts[0]);
      UnlockedSettled(Apply(s, acts[0]), acts[1..]);
    } else {
      SettledNone(s);
    }
  }

  lemma {:induction false} SettledNone(s: State)
    requires Settled(s)
    ensures s.writer.None? ==> s.stale == {}
  {
  }

  /** A step that publishes. */
  predicate Publishes(a: Action) {
    a.ByTxn? && (a.txn.PublishRoots? || a.txn.PublishXid?)
  }

  lemma {:induction false} AllocVersions(s: State, x: AllocStep)
    requires Enabled(s, ByAlloc(x))
    ensures var t := Apply(s, ByAlloc(x)); t.versions == s.versions && t.hdrXid == s.hdrXid
  {
  }

  lemma {:induction false} StepVersions(s: State, a: Action)
    requires Enabled(s, a)
    ensures s.versions <= Apply(s, a).versions
    ensures !Publishes(a) ==> Apply(s, a).versions == s.versions && Apply(s, a).hdrXid == s.hdrXid
  {
    hide AllocEnabled;
    hide AllocApply;
    if a.ByAlloc? {
      AllocVersions(s, a.alloc);
    }
  }

  /** In every run what was published stays as it was and later versions come behind it; the published trees and the
      xid change in a commit only. */
  lemma {:induction false} Unpublished(s: State, acts: seq<Action>)
    requires Possible(s, acts)
    ensures s.versions <= After(s, acts).versions
    ensures (forall a | a in acts :: !Publishes(a)) ==> After(s, acts).versions == s.versions && After(s, acts).hdrXid == s.hdrXid
    decreases |acts|
  {
    hide Enabled;
    hide Apply;
    hide Publishes;
    if acts != [] {
      StepVersions(s, acts[0]);
      Unpublished(Apply(s, acts[0]), acts[1..]);
      assert acts[0] in acts && forall a | a in acts[1..] :: a in acts;
    }
  }
}
