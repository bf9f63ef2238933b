/** A branch cut in two halves under ancestors that took both in: the frames that result. */
module BptSplit {
  import opened BptTree
  import opened BptGrow

  /** Whether the hole of `f` falls in the left half. */
  predicate InLeft(f: Frame) {
    |f.left| < Middle(f.keys)
  }

  predicate Halvable(f: Frame) {
    |f.left| + |f.right| == |f.keys| && Middle(f.keys) >= 1
  }

  /** The half with the hole, on page `a` or `b`. */
  function Part(f: Frame, a: nat, b: nat, xid: nat): Frame
    requires Halvable(f)
  {
    if InLeft(f) then LeftPart(f, a, xid) else RightPart(f, b, xid)
  }

  /** The other half. */
  function Rest(f: Frame, a: nat, b: nat, xid: nat): Tree
    requires Halvable(f)
  {
    if InLeft(f) then LeftRest(f, b, xid) else RightRest(f, a, xid)
  }

  /** The frame above, with the other half in place beside the hole. */
  function Up(pf: Frame, f: Frame, a: nat, b: nat, xid: nat): Frame
    requires Halvable(f)
  {
    if InLeft(f) then LeftHole(pf, Rest(f, a, b, xid)) else RightHole(pf, Rest(f, a, b, xid))
  }

  lemma {:induction false} SplitLeftSound(f: Frame, lo: int, hi: int, h: nat, o: Orders, key: nat,
                                          a: nat, b: nat, xid: nat, pf: Frame, ups: seq<Frame>)
    requires InLeft(f) && Cuttable(f, h, lo, hi, o)
    requires Low(f.keys, lo, |f.left|) < key <= High(f.keys, hi, |f.left|)
    requires Pivot(f.keys) >= 0
    requires SoundPair(pf, ups, h + 1, o, lo, Pivot(f.keys), hi)
    ensures Halvable(f)
    ensures SoundPair(Widened(Part(f, a, b, xid), key), [Up(pf, f, a, b, xid)] + ups, h, o,
                      Low(f.keys, lo, |f.left|), key, High(f.keys, hi, |f.left|))
  {
    hide Sound;
    hide SoundSide;
    var sep := Pivot(f.keys);
    LeftRestSound(f, h, lo, hi, o, b, xid);
    LeftHoleSound(pf, ups, h + 1, o, lo, sep, hi, Rest(f, a, b, xid));
    LeftPartSound(f, h, lo, hi, o, a, xid);
    WidenedFrame(LeftPart(f, a, xid), h, lo, sep - 1, o, key);
  }

  lemma {:induction false} SplitRightSound(f: Frame, lo: int, hi: int, h: nat, o: Orders, key: nat,
                                           a: nat, b: nat, xid: nat, pf: Frame, ups: seq<Frame>)
    requires !InLeft(f) && Cuttable(f, h, lo, hi, o)
    requires Low(f.keys, lo, |f.left|) < key <= High(f.keys, hi, |f.left|)
    requires Pivot(f.keys) >= 0
    requires SoundPair(pf, ups, h + 1, o, lo, Pivot(f.keys), hi)
    ensures Halvable(f)
    ensures SoundPair(Widened(Part(f, a, b, xid), key), [Up(pf, f, a, b, xid)] + ups, h, o,
                      Low(f.keys, lo, |f.left|), key, High(f.keys, hi, |f.left|))
  {
    hide Sound;
    hide SoundSide;
    var sep := Pivot(f.keys);
    RightRestSound(f, h, lo, hi, o, a, xid);
    RightHoleSound(pf, ups, h + 1, o, lo, sep, hi, Rest(f, a, b, xid));
    RightPartSound(f, h, lo, hi, o, b, xid);
    WidenedFrame(RightPart(f, b, xid), h, sep, hi, o, key);
  }

  lemma {:induction false} SplitSound(fs: seq<Frame>, h: nat, o: Orders, key: nat,
                                      a: nat, b: nat, xid: nat, pf: Frame, ups: seq<Frame>)
    requires fs != [] && SoundPath(fs, h, o) && FullFrame(fs[0], o) && o.branch >= 4
    requires PathLow(fs) < key <= PathHigh(fs)
    requires Pivot(fs[0].keys) >= 0
    requires SoundPair(pf, ups, h + 1, o, PathLow(fs[1..]), Pivot(fs[0].keys), PathHigh(fs[1..]))
    ensures Halvable(fs[0])
    ensures SoundPair(Widened(Part(fs[0], a, b, xid), key), [Up(pf, fs[0], a, b, xid)] + ups, h, o,
                      PathLow(fs), key, PathHigh(fs))
  {
    hide Sound;
    hide SoundSide;
    hide SoundPair;
    if InLeft(fs[0]) {
      SplitLeftSound(fs[0], PathLow(fs[1..]), PathHigh(fs[1..]), h, o, key, a, b, xid, pf, ups);
    } else {
      SplitRightSound(fs[0], PathLow(fs[1..]), PathHigh(fs[1..]), h, o, key, a, b, xid, pf, ups);
    }
  }

  lemma {:induction false} SplitEntries(fs: seq<Frame>, key: nat, a: nat, b: nat, xid: nat, pf: Frame, ups: seq<Frame>)
    requires fs != [] && Halvable(fs[0])
    requires Before(ups) + FlattenAll(pf.left) == Before(fs[1..])
    requires FlattenAll(pf.right) + After(ups) == After(fs[1..])
    ensures var part, gs := Part(fs[0], a, b, xid), [Up(pf, fs[0], a, b, xid)] + ups;
            && Before(gs) + FlattenAll(part.left) == Before(fs)
            && FlattenAll(part.right) + After(gs) == After(fs)
  {
    hide FlattenAll;
    var f, part, rest := fs[0], Part(fs[0], a, b, xid), Rest(fs[0], a, b, xid);
    HoleEntries(pf, ups, rest);
    if InLeft(f) {
      LeftCutEntries(f, a, b, xid);
      Assoc(FlattenAll(part.right), Flatten(rest), FlattenAll(pf.right), After(ups));
    } else {
      RightCutEntries(f, a, b, xid);
      Assoc(Before(ups), FlattenAll(pf.left), Flatten(rest), FlattenAll(part.left));
    }
  }

  lemma {:induction false} Assoc(a: seq<Entry>, b: seq<Entry>, c: seq<Entry>, d: seq<Entry>)
    ensures a + (b + c + d) == (a + b) + (c + d)
    ensures (a + b + c) + d == (a + b) + (c + d)
  {
  }

  lemma {:induction false} SplitBag(f: Frame, a: nat, b: nat, xid: nat, pf: Frame, ups: seq<Frame>)
    requires Halvable(f)
    ensures PathBag([Up(pf, f, a, b, xid)] + ups) == FrameBag(pf) + Bag(Rest(f, a, b, xid)) + PathBag(ups)
    ensures FrameBag(Part(f, a, b, xid)) + Bag(Rest(f, a, b, xid)) + multiset{f.no}
         == FrameBag(f) + multiset{a} + multiset{b}
    ensures |FrameBag(Part(f, a, b, xid))| + |Bag(Rest(f, a, b, xid))| == |FrameBag(f)| + 1
  {
    var part, rest := Part(f, a, b, xid), Rest(f, a, b, xid);
    if InLeft(f) {
      LeftHoleBag(pf, ups, rest);
      LeftCutBag(f, a, b, xid);
    } else {
      RightHoleBag(pf, ups, rest);
      RightCutBag(f, a, b, xid);
    }
    assert |FrameBag(part) + Bag(rest) + multiset{f.no}| == |FrameBag(f) + multiset{a} + multiset{b}|;
  }

  /** Adding up: the pages of the split path and those in hand are the ones there were. */
  lemma {:induction false} SplitBags(part: multiset<nat>, rest: multiset<nat>, n: multiset<nat>, f: multiset<nat>,
      a: multiset<nat>, b: multiset<nat>, pf: multiset<nat>, ups: multiset<nat>, tail: multiset<nat>,
      x: multiset<nat>, y: multiset<nat>, z: multiset<nat>)
    requires part + rest + n == f + a + b
    requires pf + ups + x == tail + y
    requires a + b + y == n + z
    ensures part + (pf + rest + ups) + x == f + tail + z
  {
    calc {
      part + (pf + rest + ups) + x + n;
      (part + rest + n) + (pf + ups + x);
      (f + a + b) + (tail + y);
      f + tail + (a + b + y);
      (f + tail + z) + n;
    }
    forall p ensures (part + (pf + rest + ups) + x)[p] == (f + tail + z)[p] {
      assert (part + (pf + rest + ups) + x + n)[p] == ((f + tail + z) + n)[p];
    }
  }
}
