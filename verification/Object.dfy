/** Writing an object's data piece by piece (lib/cache.c ed_write). */
module Object {
  import opened Crc

  const UINT32_MAX: nat := 0xffff_ffff

  /** An object being written. `room` are the slab bytes from the start of its data to the end of its region,
      `crc` the running checksum and `stored` the one in the header. */
  datatype Data = Data(checksum: bool, len: nat, seek: nat, room: seq<bv8>, crc: bv32, stored: bv32)

  predicate Ok(d: Data) {
    d.seek <= d.len <= |d.room|
  }

  function Zeros(n: nat): (r: seq<bv8>)
    ensures |r| == n
  {
    seq(n, i => 0 as bv8)
  }

  /** The object after `buf` more: copied, summed up, and once all the data is there, sealed. */
  function Written(d: Data, buf: seq<bv8>): (r: Data)
    requires Ok(d) && d.seek + |buf| <= d.len
    ensures Ok(r)
  {
    var room := d.room[..d.seek] + buf + d.room[d.seek + |buf|..];
    var crc := if d.checksum then Crc32c(d.crc, buf) else d.crc;
    var e := d.(room := room, crc := crc, seek := d.seek + |buf|);
    if e.seek == d.len then e.(stored := crc, room := room[..d.len] + Zeros(|room| - d.len)) else e
  }

  /** What stands where: the bytes in their place, what was before them, what is behind them or zeros once all the data is
      there, and the checksum of the data so far. */
  predicate Holds(d: Data, buf: seq<bv8>, r: Data) {
    && r.seek == d.seek + |buf| && r.len == d.len && r.checksum == d.checksum && |r.room| == |d.room| && r.seek <= |d.room|
    && r.room[d.seek..r.seek] == buf && r.room[..d.seek] == d.room[..d.seek]
    && (forall i | r.seek <= i < |d.room| :: r.room[i] == if r.seek == d.len then 0 else d.room[i])
    && r.crc == (if d.checksum then Crc32c(d.crc, buf) else d.crc)
    && r.stored == if r.seek == d.len then r.crc else d.stored
  }

  lemma {:induction false} WrittenHolds(d: Data, buf: seq<bv8>)
    requires Ok(d) && d.seek + |buf| <= d.len
    ensures Holds(d, buf, Written(d, buf))
  {
    hide Crc32c;
  }

  lemma {:induction false} CopyTwice(room: seq<bv8>, seek: nat, a: seq<bv8>, b: seq<bv8>)
    requires seek + |a| + |b| <= |room|
    ensures var once := room[..seek] + a + room[seek + |a|..];
            once[..seek + |a|] + b + once[seek + |a| + |b|..] == room[..seek] + (a + b) + room[seek + |a + b|..]
  {
  }

  /** However data is cut into calls, the object ends up the same. */
  lemma {:induction false} CutAnywhere(d: Data, a: seq<bv8>, b: seq<bv8>)
    requires Ok(d) && d.seek + |a| + |b| <= d.len
    ensures Written(Written(d, a), b) == Written(d, a + b)
  {
    hide Crc32c;
    hide Zeros;
    if b == [] {
      assert a + b == a;
      NoMore(Written(d, a), d, a);
    } else {
      Resume(d.crc, a, b);
      CopyTwice(d.room, d.seek, a, b);
    }
  }

  lemma {:induction false} NoMore(e: Data, d: Data, a: seq<bv8>)
    requires Ok(d) && d.seek + |a| <= d.len && e == Written(d, a)
    ensures Written(e, []) == e
  {
    hide Crc32c;
    hide Zeros;
    NoBytes(e.crc);
    assert e.room[..e.seek] + [] + e.room[e.seek..] == e.room;
    if e.seek == d.len {
      assert e.room[..d.len] + Zeros(|e.room| - d.len) == e.room;
    }
  }

  lemma {:induction false} NoBytes(crc: bv32)
    ensures Crc32c(crc, []) == crc
  {
    FoldNone(Not(crc));
    Twice(crc);
  }

  function Joined(parts: seq<seq<bv8>>): seq<bv8> {
    if parts == [] then [] else parts[0] + Joined(parts[1..])
  }

  datatype Rc = Wrote(n: nat) | ReadOnly | TooBig

  class Writer {
    var rdonly: bool
    var data: Data

    /** ed_write. */
    method Write(buf: seq<bv8>, align: nat) returns (rc: Rc)
      requires Ok(data) && align < 4
      modifies `data
      ensures Ok(data)
      ensures rc == if rdonly then ReadOnly else if |buf| <= 0xffff_ffff && old(data.seek) + |buf| <= old(data.len) then Wrote(|buf|) else TooBig
      ensures data == if rc.Wrote? then Written(old(data), buf) else old(data)
      // without that function: each byte of the region, and both checksums
      ensures rc.Wrote? ==>
                var d := old(data);
                && data.seek == d.seek + |buf| && data.len == d.len && data.checksum == d.checksum && |data.room| == |d.room|
                && data.room[d.seek..data.seek] == buf && data.room[..d.seek] == d.room[..d.seek]
                && (forall i | data.seek <= i < |d.room| :: data.room[i] == if data.seek == d.len then 0 else d.room[i])
                && data.crc == (if d.checksum then Crc32c(d.crc, buf) else d.crc)
                && data.stored == if data.seek == d.len then data.crc else d.stored
    {
      hide Zeros;
      hide Crc32c;
      ghost var d := data;
      if rdonly {
        return ReadOnly;
      }
      if |buf| > UINT32_MAX || data.seek + |buf| > data.len {
        return TooBig;
      }
      var crc := data.crc;
      if data.checksum {
        crc := Checksum(data.crc, buf, align);
      }
      var room := data.room[..data.seek] + buf + data.room[data.seek + |buf|..];
      data := data.(crc := crc, room := room, seek := data.seek + |buf|);
      if data.len == data.seek {
        data := data.(stored := data.crc, room := data.room[..data.len] + Zeros(|data.room| - data.len));
      }
      assert data == Written(d, buf);
      WrittenHolds(d, buf);
      rc := Wrote(|buf|);
    }

    /** Any number of calls that fit together do what one call with all the bytes does. */
    method WriteAll(parts: seq<seq<bv8>>, align: nat)
      requires Ok(data) && !rdonly && data.seek + |Joined(parts)| <= data.len && align < 4
      requires parts != [] && forall p | p in parts :: |p| <= UINT32_MAX
      modifies `data
      ensures Ok(data) && data == Written(old(data), Joined(parts))
      ensures var d, all := old(data), Joined(parts);
              && data.seek == d.seek + |all| <= |data.room| == |d.room| && data.room[d.seek..data.seek] == all && data.room[..d.seek] == d.room[..d.seek]
              && (forall i | data.seek <= i < |d.room| :: data.room[i] == if data.seek == d.len then 0 else d.room[i])
      // an object written from its start to its end verifies
      ensures var d := old(data);
              d.checksum && d.seek == 0 && d.crc == 0 && |Joined(parts)| == d.len ==> data.stored == Crc32c(0, data.room[..data.len])
    {
      hide Crc32c;
      hide Written;
      hide Joined;
      ghost var d, done := data, parts[0];
      JoinedStep(parts, 0, []);
      assert [] + parts[0] == parts[0];
      var _ := Write(parts[0], align);
      var i := 1;
      WrittenSize(d, done);
      while i < |parts|
        invariant 1 <= i <= |parts| && done + Joined(parts[i..]) == Joined(parts) && !rdonly
        invariant Ok(d) && d.seek + |done| <= d.len && data == Written(d, done) && data.seek == d.seek + |done| && data.len == d.len
      {
        JoinedStep(parts, i, done);
        assert parts[i] in parts;
        var _ := Write(parts[i], align);
        CutAnywhere(d, done, parts[i]);
        done, i := done + parts[i], i + 1;
        WrittenSize(d, done);
      }
      JoinedAll(parts, done);
      WrittenHolds(d, done);
      assert data.seek == data.len && d.seek == 0 ==> data.room[..data.len] == data.room[0..data.seek];
    }
  }

  lemma {:induction false} JoinedStep(parts: seq<seq<bv8>>, i: nat, done: seq<bv8>)
    requires i < |parts| && (i == 0 ==> done == []) && (i > 0 ==> done + Joined(parts[i..]) == Joined(parts))
    ensures (done + parts[i]) + Joined(parts[i + 1..]) == Joined(parts) && |done| + |parts[i]| <= |Joined(parts)|
  {
    assert parts[0..] == parts;
    assert parts[i..][0] == parts[i] && parts[i..][1..] == parts[i + 1..];
    assert done + (parts[i] + Joined(parts[i + 1..])) == (done + parts[i]) + Joined(parts[i + 1..]);
  }

  lemma {:induction false} JoinedAll(parts: seq<seq<bv8>>, done: seq<bv8>)
    requires done + Joined(parts[|parts|..]) == Joined(parts)
    ensures done == Joined(parts)
  {
  }

  lemma {:induction false} WrittenSize(d: Data, buf: seq<bv8>)
    requires Ok(d) && d.seek + |buf| <= d.len
    ensures Written(d, buf).seek == d.seek + |buf| && Written(d, buf).len == d.len
  {
    hide Crc32c;
  }
}
