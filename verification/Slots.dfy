/** The scan of the connection table for the oldest transaction still read (lib/idx.c ed_idx_xmin).

    The scan is taken over a table that stands still; `Protocol` has it step by step among other processes. */
module Slots {
  datatype Slot = Slot(pid: int, active: nat, xid: nat, pending: seq<nat>)

  const EMPTY := Slot(0, 0, 0, [])
  const TIME_SPAN: nat := 0x1_0000_0000
  const XID_MAX: nat := 0xFFFF_FFFF_FFFF_FFFF

  /** A connection that is reading. */
  predicate Reading(c: Slot) {
    c.pid != 0 && c.xid != 0
  }

  /** ed_idx_xmin: the result is the least transaction among the one before the last commit, where the subtraction may
      wrap, and those the connections left in the table still read. A slot of another that nobody holds (`dead`) is
      cleared if it reads a version more than sixteen transactions before that, or if its time passes the test on the
      activity time. */
  method Xmin(conns: array<Slot>, own: nat, dead: set<nat>, hdrXid: nat, now: nat) returns (xid: nat)
    requires own < conns.Length && hdrXid <= XID_MAX && now < TIME_SPAN
    modifies conns
    ensures forall i: nat | i < conns.Length ::
              var c := old(conns[i]);
              conns[i] ==
              if && c.pid != 0 && c.xid != 0 && i != own && i in dead
                 && (|| c.xid + 17 < (if hdrXid == 0 then XID_MAX + 1 else hdrXid)
                     || (c.active > 0 && if now < 10 then c.active > now + (TIME_SPAN - 10) else 10 < now < c.active + 10))
              then Slot(0, 0, 0, []) else c
    ensures forall i: nat | i < conns.Length && conns[i].pid != 0 && conns[i].xid != 0 :: xid <= conns[i].xid
    ensures if hdrXid == 0 then xid <= XID_MAX else xid < hdrXid
    ensures || xid + 1 == (if hdrXid == 0 then XID_MAX + 1 else hdrXid)
            || exists i: nat :: i < conns.Length && conns[i].pid != 0 && conns[i].xid == xid != 0
  {
    xid := if hdrXid == 0 then XID_MAX else hdrXid - 1;
    ghost var top := xid;
    var xmin := if xid > 16 then xid - 16 else 0;
    var tmin := (now + TIME_SPAN - 10) % TIME_SPAN;
    for i := 0 to conns.Length
      invariant forall j: nat | j < i ::
                  var c := old(conns[j]);
                  conns[j] ==
                  if Reading(c) && j != own && j in dead && (c.xid < xmin || (tmin > 0 && c.active > 0 && tmin < c.active)) then EMPTY else c
      invariant forall j: nat | i <= j < conns.Length :: conns[j] == old(conns[j])
      invariant xid <= top
      invariant forall j: nat | j < i && Reading(conns[j]) :: xid <= conns[j].xid
      invariant xid == top || exists j: nat :: j < i && Reading(conns[j]) && conns[j].xid == xid
    {
      var c := conns[i];
      if c.pid == 0 || c.xid == 0 { continue; }
      if i != own && (c.xid < xmin || (tmin > 0 && c.active > 0 && tmin < c.active)) {
        if i in dead {
          conns[i] := EMPTY;
          continue;
        }
      }
      if c.xid < xid { xid := c.xid; }
    }
  }
}
