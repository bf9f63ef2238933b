/** What ed_alloc and ed_free_pgno do to the chain of gc pages (`Alloc`), as steps of the writer (`Protocol`): each call is a
    run of them, and what the file records after it is the chain that the call leaves. */
module AllocSteps {
  import opened Gc
  import opened Alloc
  import P = Protocol

  // ---- what the file records

  function Set(s: seq<nat>): set<nat> {
    set p | p in s
  }

  ghost predicate PagesOk(chain: seq<Page>) {
    forall i | 0 <= i < |chain| :: PageOk(chain[i])
  }

  /** The listed pages with the transactions of their lists. */
  predicate Lists(free: map<nat, nat>, tags: seq<Tag>) {
    free.Keys == Set(TagNos(tags)) && forall i | 0 <= i < |tags| :: tags[i].no in free && free[tags[i].no] == tags[i].xid
  }

  /** The header and the gc pages in the file are this chain, and the unused part begins at `end`. */
  ghost predicate Shown(s: P.State, chain: seq<Page>, end: nat) {
    PagesOk(chain) && s.chain == Set(Nos(chain)) && Lists(s.free, ChainTags(chain)) && s.tail == end
  }

  // ---- runs

  lemma {:induction false} RunAppend(s: P.State, a: seq<P.Action>, b: seq<P.Action>)
    requires P.Possible(s, a) && P.Possible(P.After(s, a), b)
    ensures P.Possible(s, a + b) && P.After(s, a + b) == P.After(P.After(s, a), b)
    decreases |a|
  {
    hide P.Enabled;
    hide P.Apply;
    if a == [] {
      assert a + b == b;
    } else {
      assert (a + b)[0] == a[0] && (a + b)[1..] == a[1..] + b;
      RunAppend(P.Apply(s, a[0]), a[1..], b);
    }
  }

  lemma {:induction false} RunOne(s: P.State, a: P.Action)
    requires P.Enabled(s, a)
    ensures P.Possible(s, [a]) && P.After(s, [a]) == P.Apply(s, a)
  {
    hide P.Enabled;
    hide P.Apply;
    assert [a][1..] == [];
    assert P.After(P.Apply(s, a), []) == P.Apply(s, a);
  }

  /** The writer may allocate: its scan is complete, and nothing is staged. */
  predicate Scanned(s: P.State, xmin: int) {
    && s.writer.Some? && s.stale == {} && P.Busy(s.writer.value) && s.conns.Keys <= s.writer.value.scanned
    && s.writer.value.xmin == xmin
  }

  function Staged(s: P.State, taken: set<nat>, grown: set<nat>, tail: nat): P.State
    requires s.writer.Some?
  {
    var w := s.writer.value;
    s.(tail := tail, writer := P.Some(w.(taken := w.taken + taken, grown := w.grown + grown)))
  }

  lemma {:induction false} StagedTwice(s: P.State, a: set<nat>, x: set<nat>, m: nat, b: set<nat>, y: set<nat>, n: nat)
    requires s.writer.Some?
    ensures Staged(Staged(s, a, x, m), b, y, n) == Staged(s, a + b, x + y, n)
  {
    var w := s.writer.value;
    assert w.taken + a + b == w.taken + (a + b) && w.grown + x + y == w.grown + (x + y);
  }

  lemma {:induction false} StagedOne(s: P.State)
    requires s.writer.Some?
    ensures var w := s.writer.value;
            && Staged(s, {}, {}, s.tail) == s
            && (forall p :: Staged(s, {p}, {}, s.tail) == s.(writer := P.Some(w.(taken := w.taken + {p}))))
            && (forall p, n :: Staged(s, {}, {p}, n) == s.(tail := n, writer := P.Some(w.(grown := w.grown + {p}))))
  {
    var w := s.writer.value;
    assert w.taken + {} == w.taken && w.grown + {} == w.grown;
  }

  function Takes(tags: seq<Tag>): seq<P.Action> {
    seq(|tags|, i requires 0 <= i < |tags| => P.ByAlloc(P.Take(tags[i].no)))
  }

  lemma {:induction false} TakesRun(s: P.State, tags: seq<Tag>, xmin: int)
    requires Scanned(s, xmin)
    requires forall i | 0 <= i < |tags| :: tags[i].no in s.free && P.Ripe(s.free[tags[i].no], xmin)
    ensures P.Possible(s, Takes(tags)) && P.After(s, Takes(tags)) == Staged(s, Set(TagNos(tags)), {}, s.tail)
    decreases |tags|
  {
    StagedOne(s);
    if tags == [] {
      assert Set(TagNos(tags)) == {};
    } else {
      var t := Staged(s, {tags[0].no}, {}, s.tail);
      assert Takes(tags)[1..] == Takes(tags[1..]);
      assert P.Apply(s, Takes(tags)[0]) == t;
      TakesRun(t, tags[1..], xmin);
      StagedTwice(s, {tags[0].no}, {}, s.tail, Set(TagNos(tags[1..])), {}, s.tail);
      assert Set(TagNos(tags)) == {tags[0].no} + Set(TagNos(tags[1..])) by {
        assert TagNos(tags) == [tags[0].no] + TagNos(tags[1..]);
      }
    }
  }

  function Recycles(nos: seq<nat>): seq<P.Action> {
    seq(|nos|, i requires 0 <= i < |nos| => P.ByAlloc(P.Recycle(nos[i])))
  }

  lemma {:induction false} RecyclesRun(s: P.State, nos: seq<nat>, xmin: int)
    requires Scanned(s, xmin) && forall i | 0 <= i < |nos| :: nos[i] in s.chain
    ensures P.Possible(s, Recycles(nos)) && P.After(s, Recycles(nos)) == Staged(s, Set(nos), {}, s.tail)
    decreases |nos|
  {
    StagedOne(s);
    if nos == [] {
      assert Set(nos) == {};
    } else {
      var t := Staged(s, {nos[0]}, {}, s.tail);
      assert Recycles(nos)[1..] == Recycles(nos[1..]);
      assert P.Apply(s, Recycles(nos)[0]) == t;
      RecyclesRun(t, nos[1..], xmin);
      StagedTwice(s, {nos[0]}, {}, s.tail, Set(nos[1..]), {}, s.tail);
      assert Set(nos) == {nos[0]} + Set(nos[1..]) by {
        assert nos == [nos[0]] + nos[1..];
      }
    }
  }

  function Grows(n: nat): seq<P.Action> {
    seq(n, _ => P.ByAlloc(P.Grow))
  }

  lemma {:induction false} GrowsRun(s: P.State, n: nat, xmin: int)
    requires Scanned(s, xmin)
    ensures P.Possible(s, Grows(n)) && P.After(s, Grows(n)) == Staged(s, {}, Set(Range(s.tail, s.tail + n)), s.tail + n)
    decreases n
  {
    hide Set;
    StagedOne(s);
    RangeSet(s.tail, s.tail + n);
    if n > 0 {
      var t := Staged(s, {}, {s.tail}, s.tail + 1);
      assert Grows(n)[1..] == Grows(n - 1);
      assert P.Apply(s, Grows(n)[0]) == t;
      GrowsRun(t, n - 1, xmin);
      StagedTwice(s, {}, {s.tail}, t.tail, {}, Set(Range(t.tail, t.tail + (n - 1))), s.tail + n);
    }
  }

  lemma {:induction false} RangeSet(a: nat, b: nat)
    requires a <= b
    ensures if a == b then Set(Range(a, b)) == {} else Set(Range(a, b)) == {a} + Set(Range(a + 1, b))
  {
    if a < b {
      assert Range(a, b) == [a] + Range(a + 1, b);
    }
  }

  // ---- an allocation

  /** The chain left is the end of the chain before, but for what was taken from its first page. */
  ghost predicate Behind(chain: seq<Page>, r: seq<Page>) {
    && ChainOk(chain) && ChainOk(r) && |r| <= |chain|
    && var k := |chain| - |r|; r[1..] == chain[k + 1..] && |PageTags(r[0])| <= |PageTags(chain[k])|
  }

  lemma {:induction false} LeftBehind(chain: seq<Page>, npg: nat, xmin: int)
    requires ChainOk(chain)
    ensures Behind(chain, Left(chain, npg, xmin))
    decreases |chain|, |chain[0].lists|, 1
  {
    hide PageOk;
    hide PageTags;
    LeftOk(chain, npg, xmin);
    LeftStep(chain, npg, xmin);
    if npg > 0 && chain[0].lists != [] {
      LeftFromBehind(chain, npg, xmin);
    } else if npg > 0 && |chain| > 1 {
      HeadGone(chain);
      LeftFromBehind(chain[1..], npg - 1, xmin);
      var r := LeftFrom(chain[1..], npg - 1, xmin);
      var k := |chain| - |r|;
      assert chain[1..][k - 1] == chain[k] && chain[1..][k..] == chain[k + 1..];
    }
  }

  lemma {:induction false} LeftFromBehind(chain: seq<Page>, want: nat, xmin: int)
    requires ChainOk(chain)
    ensures Behind(chain, LeftFrom(chain, want, xmin))
    decreases |chain|, |chain[0].lists|, 0
  {
    hide PageOk;
    hide PageTags;
    hide Left;
    hide Dropped;
    LeftFromOk(chain, want, xmin);
    var g, r := chain[0], LeftFrom(chain, want, xmin);
    if g.lists != [] && Ripe(g.lists[0].xid, xmin) {
      SkipBound(g);
      var left := |g.lists[0].pages| - g.nskip;
      if want < left {
        SkipTags(g, want);
        assert r[1..] == chain[1..];
      } else {
        DropTags(g);
        DropShorter(g);
        var c := [Dropped(g)] + chain[1..];
        HeadTags(chain, Dropped(g), Tags(g.lists[0].xid, g.lists[0].pages[g.nskip..]));
        LeftBehind(c, want - left, xmin);
        var k := |c| - |r|;
        assert c[k + 1..] == chain[k + 1..] && (k > 0 ==> c[k] == chain[k]);
      }
    }
  }

  /** Each number once. */
  predicate Apart(s: seq<nat>) {
    forall i, j | 0 <= i < j < |s| :: s[i] != s[j]
  }

  lemma {:induction false} OnceApart(s: seq<nat>)
    requires forall p :: multiset(s)[p] <= 1
    ensures Apart(s)
  {
    forall i, j | 0 <= i < j < |s| ensures s[i] != s[j] {
      assert s == s[..i] + [s[i]] + s[i + 1..j] + [s[j]] + s[j + 1..];
      assert multiset(s)[s[i]] <= 1;
    }
  }

  lemma {:induction false} TagNosAt(tags: seq<Tag>)
    ensures |TagNos(tags)| == |tags| && forall i | 0 <= i < |tags| :: TagNos(tags)[i] == tags[i].no
  {
  }

  lemma {:induction false} SetIs(tags: seq<Tag>, p: nat)
    ensures p in Set(TagNos(tags)) <==> exists i | 0 <= i < |tags| :: tags[i].no == p
  {
    if i :| 0 <= i < |tags| && tags[i].no == p {
      assert TagNos(tags)[i] == p;
    }
  }

  /** Pages removed from the middle of what is listed. */
  lemma {:induction false} ListsLess(free: map<nat, nat>, a: seq<Tag>, b: seq<Tag>, c: seq<Tag>, x: set<nat>)
    requires Lists(free, a + b + c) && Apart(TagNos(a + b + c)) && x * free.Keys == Set(TagNos(b))
    ensures Lists(map p | p in free && p !in x :: free[p], a + c)
  {
    var all, rest := a + b + c, a + c;
    var less := map p | p in free && p !in x :: free[p];
    TagNosAt(all);
    forall i | 0 <= i < |rest| ensures rest[i].no in less && less[rest[i].no] == rest[i].xid {
      var m := if i < |a| then i else i + |b|;
      assert all[m] == rest[i];
      forall j | 0 <= j < |b| ensures b[j].no != rest[i].no {
        assert all[|a| + j] == b[j] && TagNos(all)[|a| + j] != TagNos(all)[m];
      }
      SetIs(b, rest[i].no);
    }
    forall p ensures p in less <==> p in Set(TagNos(rest)) {
      SetIs(rest, p);
      if p in less {
        SetIs(all, p);
        SetIs(b, p);
        forall m | |a| <= m < |a| + |b| ensures all[m].no != p {
          assert all[m] == b[m - |a|];
        }
        var m :| 0 <= m < |all| && all[m].no == p;
        var i := if m < |a| then m else m - |b|;
        assert rest[i] == all[m];
      }
    }
  }

  /** What ed_alloc stages, and the two writes that take it out of the file. */
  function Staging(recycled: seq<nat>, taken: seq<Tag>, n: nat): seq<P.Action> {
    Takes(taken) + Recycles(recycled) + Grows(n)
  }

  lemma {:induction false} StagingRun(s: P.State, recycled: seq<nat>, taken: seq<Tag>, n: nat, xmin: int)
    requires Scanned(s, xmin)
    requires (forall i | 0 <= i < |taken| :: taken[i].no in s.free && P.Ripe(s.free[taken[i].no], xmin)) && Set(recycled) <= s.chain
    ensures P.Possible(s, Staging(recycled, taken, n))
    ensures P.After(s, Staging(recycled, taken, n)) ==
            Staged(s, Set(TagNos(taken)) + Set(recycled), Set(Range(s.tail, s.tail + n)), s.tail + n)
  {
    hide P.Possible;
    hide P.After;
    var x, y, z := Set(TagNos(taken)), Set(recycled), Set(Range(s.tail, s.tail + n));
    TakesRun(s, taken, xmin);
    var a := Staged(s, x, {}, s.tail);
    RecyclesRun(a, recycled, xmin);
    RunAppend(s, Takes(taken), Recycles(recycled));
    var b := Staged(a, y, {}, s.tail);
    StagedTwice(s, x, {}, s.tail, y, {}, s.tail);
    GrowsRun(b, n, xmin);
    RunAppend(s, Takes(taken) + Recycles(recycled), Grows(n));
    StagedTwice(s, x + y, {}, s.tail, {}, z, s.tail + n);
    assert {} + z == z && x + y + {} == x + y;
  }

  /** The state after ed_alloc: what it staged is out of lists and chain and in the writer's hands. */
  function Handled(s: P.State, staged: set<nat>, grown: set<nat>, tail: nat, forChain: bool): P.State
    requires s.writer.Some?
  {
    var w := s.writer.value;
    var v := if forChain then w.(spare := w.spare + (staged + grown)) else w.(pg := w.pg + (staged + grown));
    s.(tail := tail, free := map p | p in s.free && p !in staged :: s.free[p], chain := s.chain - staged,
       writer := P.Some(v.(taken := {}, grown := {}, scanned := {})))
  }

  /** What the file records between the two writes: the page reached has given its pages, those in front are there. */
  function Halfway(s: P.State, x: set<nat>, staged: set<nat>, grown: set<nat>, tail: nat): P.State
    requires s.writer.Some?
  {
    s.(tail := tail, free := map p | p in s.free && p !in x :: s.free[p],
       writer := P.Some(s.writer.value.(taken := staged - x, grown := grown + x)))
  }

  lemma {:induction false} TwoWrites(s: P.State, x: set<nat>, staged: set<nat>, grown: set<nat>, tail: nat, forChain: bool)
    requires s.writer.Some? && s.stale == {} && P.Busy(s.writer.value) && (forChain || s.writer.value.phase == P.Open)
    requires s.writer.value.taken == {} && s.writer.value.grown == {}
    requires x <= staged && x <= s.free.Keys && x !! s.chain
    ensures var t, a, b := Staged(s, staged, grown, tail), P.ByAlloc(P.StoreState(x)), P.ByAlloc(P.EndAlloc(forChain));
            && P.Possible(t, [a]) && P.After(t, [a]) == Halfway(s, x, staged, grown, tail)
            && P.Possible(t, [a, b]) && P.After(t, [a, b]) == Handled(s, staged, grown, tail, forChain)
  {
    var t, a, b := Staged(s, staged, grown, tail), P.ByAlloc(P.StoreState(x)), P.ByAlloc(P.EndAlloc(forChain));
    assert {} + staged == staged && {} + grown == grown;
    var u := Halfway(s, x, staged, grown, tail);
    assert P.Apply(t, a) == u;
    RunOne(t, a);
    assert (staged - x) + (grown + x) == staged + grown;
    assert s.chain - (staged - x) == s.chain - staged;
    assert P.Apply(u, b).free == Handled(s, staged, grown, tail, forChain).free;
    assert P.Apply(u, b) == Handled(s, staged, grown, tail, forChain);
    RunOne(u, b);
    RunAppend(t, [a], [b]);
    assert [a] + [b] == [a, b];
  }

  /** Every allocation is a run of the writer's steps, from the chain before to the chain it leaves, through the chain
      that stands between its two writes. */
  lemma {:induction false} AllocRuns(s: P.State, from: seq<Page>, end: nat, chain: seq<Page>, end': nat, npg: nat, xmin: int,
                                     out: seq<nat>, recycled: seq<nat>, taken: seq<Tag>, forChain: bool)
    requires Scanned(s, xmin) && (forChain || s.writer.value.phase == P.Open)
    requires s.writer.value.taken == {} && s.writer.value.grown == {}
    requires Shown(s, from, end) && ChainOk(from) && Separate(Held(from), end)
    requires Handed(from, end, chain, end', npg, xmin, out, recycled, taken) && chain == Left(from, npg, xmin)
    ensures var k, w := |recycled|, s.writer.value;
            var x := Set(TagNos(taken)) - Set(TagNos(ChainTags(from[..k])));
            var a := Staging(recycled, taken, end' - end) + [P.ByAlloc(P.StoreState(x))];
            var b := Staging(recycled, taken, end' - end) + [P.ByAlloc(P.StoreState(x)), P.ByAlloc(P.EndAlloc(forChain))];
            && P.Possible(s, a) && Shown(P.After(s, a), from[..k] + chain, end')
            && P.Possible(s, b) && Shown(P.After(s, b), chain, end')
            && P.After(s, b).writer ==
               P.Some((if forChain then w.(spare := w.spare + Set(out)) else w.(pg := w.pg + Set(out))).(taken := {}, grown := {}, scanned := {}))
  {
    hide P.Possible;
    hide P.After;
    hide Handed;
    hide PageOk;
    hide ChainTags;
    hide Separate;
    hide Left;
    hide Lists;
    HandedStages(s, from, end, chain, end', npg, xmin, out, recycled, taken);
    var k := |recycled|;
    var x := Set(TagNos(taken)) - Set(TagNos(ChainTags(from[..k])));
    var staged, grown := Set(TagNos(taken)) + Set(recycled), Set(Range(end, end'));
    StagingRun(s, recycled, taken, end' - end, xmin);
    HandedFile(s, from, end, chain, end', npg, xmin, out, recycled, taken);
    TwoWrites(s, x, staged, grown, end', forChain);
    RunAppend(s, Staging(recycled, taken, end' - end), [P.ByAlloc(P.StoreState(x))]);
    RunAppend(s, Staging(recycled, taken, end' - end), [P.ByAlloc(P.StoreState(x)), P.ByAlloc(P.EndAlloc(forChain))]);
  }

  /** Every page staged is where the steps expect it. */
  lemma {:induction false} HandedStages(s: P.State, from: seq<Page>, end: nat, chain: seq<Page>, end': nat, npg: nat, xmin: int,
                                        out: seq<nat>, recycled: seq<nat>, taken: seq<Tag>)
    requires Shown(s, from, end) && ChainOk(from) && Handed(from, end, chain, end', npg, xmin, out, recycled, taken)
    ensures forall i | 0 <= i < |taken| :: taken[i].no in s.free && P.Ripe(s.free[taken[i].no], xmin)
    ensures Set(recycled) <= s.chain && end <= end' && |recycled| <= |from|
    ensures Set(out) == Set(TagNos(taken)) + Set(recycled) + Set(Range(end, end'))
  {
    hide PageOk;
    hide ChainTags;
    hide Sorted;
    assert |Nos(from)| == |from|;
    var all := ChainTags(from);
    forall i | 0 <= i < |taken| ensures taken[i].no in s.free && P.Ripe(s.free[taken[i].no], xmin) {
      assert all[i] == taken[i];
    }
    forall p | p in recycled ensures p in s.chain {
      assert p in Nos(from);
    }
    var m := |recycled| + |taken|;
    assert out == out[..|recycled|] + out[|recycled|..m] + out[m..];
    assert forall p :: p in out[|recycled|..m] <==> p in multiset(out[|recycled|..m]);
    assert forall p :: p in TagNos(taken) <==> p in multiset(TagNos(taken));
  }

  lemma {:induction false} TakenSplit(from: seq<Page>, chain: seq<Page>, taken: seq<Tag>, k: nat)
    requires Behind(from, chain) && k == |from| - |chain| && ChainTags(from) == taken + ChainTags(chain)
    ensures var f := ChainTags(from[..k]); |f| <= |taken| && taken == f + taken[|f|..]
  {
    hide PageOk;
    hide PageTags;
    hide ChainTags;
    var f := ChainTags(from[..k]);
    assert from == from[..k] + from[k..] && from[k..] == [from[k]] + from[k + 1..] && chain == [chain[0]] + chain[1..];
    ChainTagsAppend(from[..k], from[k..]);
    ChainTagsAppend([from[k]], from[k + 1..]);
    ChainTagsAppend([chain[0]], chain[1..]);
    OneTags(from[k]);
    OneTags(chain[0]);
    assert ChainTags(from)[..|f|] == f;
  }

  lemma {:induction false} HeldApart(from: seq<Page>, end: nat)
    requires ChainOk(from) && Separate(Held(from), end)
    ensures Apart(TagNos(ChainTags(from))) && Apart(Nos(from)) && Set(Nos(from)) !! Set(TagNos(ChainTags(from)))
  {
    hide PageOk;
    hide ChainTags;
    var a, b := Nos(from), TagNos(ChainTags(from));
    forall p ensures multiset(a)[p] + multiset(b)[p] <= 1 {
      assert Held(from)[p] <= 1;
    }
    OnceApart(a);
    OnceApart(b);
    forall p | p in a ensures p !in b {
      assert p in multiset(a) && (p in b ==> p in multiset(b));
    }
  }

  lemma {:induction false} FreeHalfway(free: map<nat, nat>, f: seq<Tag>, b: seq<Tag>, g: seq<Tag>, gone: set<nat>)
    requires Lists(free, f + b + g) && Apart(TagNos(f + b + g)) && gone !! free.Keys
    ensures var x := Set(TagNos(f + b)) - Set(TagNos(f));
            && x <= free.Keys && Lists(map p | p in free && p !in x :: free[p], f + g)
            && Lists(map p | p in free && p !in Set(TagNos(f + b)) + gone :: free[p], g)
  {
    hide Lists;
    var x, y := Set(TagNos(f + b)) - Set(TagNos(f)), Set(TagNos(f + b)) + gone;
    assert x * free.Keys == Set(TagNos(b)) && y * free.Keys == Set(TagNos(f + b)) by { KeysOf(free, f, b, g, gone); }
    ListsLess(free, f, b, g, x);
    assert [] + (f + b) + g == f + b + g && [] + g == g;
    ListsLess(free, [], f + b, g, y);
  }

  lemma {:induction false} KeysOf(free: map<nat, nat>, f: seq<Tag>, b: seq<Tag>, g: seq<Tag>, gone: set<nat>)
    requires Lists(free, f + b + g) && Apart(TagNos(f + b + g)) && gone !! free.Keys
    ensures var x, y := Set(TagNos(f + b)) - Set(TagNos(f)), Set(TagNos(f + b)) + gone;
            x == x * free.Keys == Set(TagNos(b)) && y * free.Keys == Set(TagNos(f + b))
  {
    var p, q, r := TagNos(f), TagNos(b), TagNos(g);
    TagNosAppend(f, b);
    TagNosAppend(f + b, g);
    assert TagNos(f + b + g) == p + q + r;
    forall n | n in q ensures n !in p {
      var j :| 0 <= j < |q| && q[j] == n;
      forall i | 0 <= i < |p| ensures p[i] != n {
        assert (p + q + r)[i] == p[i] && (p + q + r)[|p| + j] == n;
      }
    }
  }

  lemma {:induction false} NosFront(from: seq<Page>, chain: seq<Page>, recycled: seq<nat>)
    requires Nos(from) == recycled + Nos(chain) && Apart(Nos(from))
    ensures |recycled| <= |from| && Nos(from[..|recycled|] + chain) == Nos(from)
    ensures Set(Nos(chain)) == Set(Nos(from)) - Set(recycled)
  {
    var k := |recycled|;
    assert |Nos(from)| == |from| && |Nos(chain)| == |chain|;
    assert forall i | 0 <= i < k :: Nos(from)[i] == recycled[i];
    assert forall i | 0 <= i < |chain| :: Nos(from)[k + i] == Nos(chain)[i];
    forall p | p in Nos(chain) ensures p !in recycled && p in Nos(from) {
      var j :| 0 <= j < |chain| && Nos(chain)[j] == p;
      assert Nos(from)[k + j] == p;
      forall i | 0 <= i < k ensures recycled[i] != p {
        assert Nos(from)[i] == recycled[i];
      }
    }
  }

  /** The file between the two writes, and after them. */
  lemma {:induction false} HandedFile(s: P.State, from: seq<Page>, end: nat, chain: seq<Page>, end': nat, npg: nat, xmin: int,
                                      out: seq<nat>, recycled: seq<nat>, taken: seq<Tag>)
    requires s.writer.Some? && Shown(s, from, end) && ChainOk(from) && Separate(Held(from), end)
    requires Handed(from, end, chain, end', npg, xmin, out, recycled, taken) && chain == Left(from, npg, xmin)
    ensures var k := |recycled|;
            var x := Set(TagNos(taken)) - Set(TagNos(ChainTags(from[..k])));
            var staged, grown := Set(TagNos(taken)) + Set(recycled), Set(Range(end, end'));
            && x <= staged && x <= s.free.Keys && x !! s.chain
            && Shown(Halfway(s, x, staged, grown, end'), from[..k] + chain, end')
            && forall b :: Shown(Handled(s, staged, grown, end', b), chain, end')
  {
    hide PageOk;
    hide PageTags;
    hide ChainTags;
    hide Left;
    hide Sorted;
    var k := |recycled|;
    LeftBehind(from, npg, xmin);
    assert |from| == |Nos(from)| == k + |Nos(chain)| == k + |chain|;
    var f, g := ChainTags(from[..k]), ChainTags(chain);
    TakenSplit(from, chain, taken, k);
    var b := taken[|f|..];
    HeldApart(from, end);
    var x := Set(TagNos(taken)) - Set(TagNos(f));
    assert f + b + g == ChainTags(from) && f + b == taken;
    NosFront(from, chain, recycled);
    FreeHalfway(s.free, f, b, g, Set(recycled));
    ChainTagsAppend(from[..k], chain);
    assert s.chain - (Set(TagNos(taken)) + Set(recycled)) == Set(Nos(chain)) by { TakenListed(taken, g); }
  }

  lemma {:induction false} TakenListed(taken: seq<Tag>, g: seq<Tag>)
    ensures Set(TagNos(taken)) <= Set(TagNos(taken + g))
  {
    TagNosAppend(taken, g);
  }

  // ---- storing freed pages

  /** Writes of the second loop of ed_free_pgno, in any order it may come to: gc pages of `spare` are appended, lists
      opened over whatever is left there, and pages listed as `tags` says. */
  predicate Stores(acts: seq<P.Action>, spare: seq<nat>, tags: seq<Tag>)
    decreases |acts|
  {
    if acts == [] then spare == [] && tags == []
    else
      acts[0].ByAlloc? &&
      match acts[0].alloc
      case Link(p) => spare != [] && p == spare[0] && Stores(acts[1..], spare[1..], tags)
      case List(p, xid) => tags != [] && tags[0] == Tag(p, xid) && Stores(acts[1..], spare, tags[1..])
      case OpenList(x) => |acts| > 1 && acts[1] == P.ByAlloc(P.StoreHeader) && Stores(acts[2..], spare, tags)
      case _ => false
  }

  function Listed(free: map<nat, nat>, tags: seq<Tag>): map<nat, nat>
    decreases |tags|
  {
    if tags == [] then free else Listed(free[tags[0].no := tags[0].xid], tags[1..])
  }

  function Stored(s: P.State, spare: set<nat>, tags: seq<Tag>): P.State
    requires s.writer.Some?
  {
    var w := s.writer.value;
    s.(chain := s.chain + spare, free := Listed(s.free, tags),
       writer := P.Some(w.(spare := w.spare - spare, freeing := w.freeing - Set(TagNos(tags)))))
  }

  /** The writer has these pages in hand to store. */
  ghost predicate InHand(s: P.State, spare: seq<nat>, tags: seq<Tag>) {
    && s.writer.Some? && s.stale == {} && P.Busy(s.writer.value)
    && Set(spare) <= s.writer.value.spare && Apart(spare)
    && Set(TagNos(tags)) <= s.writer.value.freeing && Apart(TagNos(tags)) && Since(tags, s.writer.value.tag)
  }

  lemma {:induction false} FirstOf(s: seq<nat>)
    requires s != [] && Apart(s)
    ensures Set(s) == {s[0]} + Set(s[1..]) && s[0] !in Set(s[1..]) && Apart(s[1..])
  {
    assert s == [s[0]] + s[1..];
    forall i | 0 <= i < |s[1..]| ensures s[1..][i] != s[0] {
      assert s[1..][i] == s[i + 1];
    }
  }

  lemma {:induction false} FirstTag(tags: seq<Tag>, xid: nat)
    requires tags != [] && Apart(TagNos(tags)) && Since(tags, xid)
    ensures Set(TagNos(tags)) == {tags[0].no} + Set(TagNos(tags[1..])) && tags[0].no !in Set(TagNos(tags[1..]))
    ensures Apart(TagNos(tags[1..])) && Since(tags[1..], xid) && tags[0].xid >= xid
  {
    assert TagNos(tags)[1..] == TagNos(tags[1..]);
    FirstOf(TagNos(tags));
  }

  lemma {:induction false} StoresRun(s: P.State, acts: seq<P.Action>, spare: seq<nat>, tags: seq<Tag>)
    requires Stores(acts, spare, tags) && InHand(s, spare, tags)
    ensures P.Possible(s, acts) && P.After(s, acts) == Stored(s, Set(spare), tags)
    decreases |acts|, 1
  {
    var w := s.writer.value;
    if acts == [] {
      assert Set(spare) == {} && Set(TagNos(tags)) == {};
      assert s.chain + {} == s.chain && w.spare - {} == w.spare && w.freeing - {} == w.freeing;
    } else {
      match acts[0].alloc {
        case Link(p) => LinkRun(s, acts, spare, tags);
        case List(p, xid) => ListRun(s, acts, spare, tags);
        case OpenList(x) => OpenRun(s, acts, spare, tags);
      }
    }
  }

  lemma {:induction false} LinkRun(s: P.State, acts: seq<P.Action>, spare: seq<nat>, tags: seq<Tag>)
    requires Stores(acts, spare, tags) && InHand(s, spare, tags) && acts != [] && acts[0].alloc.Link?
    ensures P.Possible(s, acts) && P.After(s, acts) == Stored(s, Set(spare), tags)
    decreases |acts|, 0
  {
    hide TagNos;
    hide Apart;
    var w := s.writer.value;
    FirstOf(spare);
    var t := P.Apply(s, acts[0]);
    assert t == s.(chain := s.chain + {spare[0]}, writer := P.Some(w.(spare := w.spare - {spare[0]})));
    StoresRun(t, acts[1..], spare[1..], tags);
    var rest := Set(spare[1..]);
    assert s.chain + {spare[0]} + rest == s.chain + Set(spare) && w.spare - {spare[0]} - rest == w.spare - Set(spare);
  }

  lemma {:induction false} ListRun(s: P.State, acts: seq<P.Action>, spare: seq<nat>, tags: seq<Tag>)
    requires Stores(acts, spare, tags) && InHand(s, spare, tags) && acts != [] && acts[0].alloc.List?
    ensures P.Possible(s, acts) && P.After(s, acts) == Stored(s, Set(spare), tags)
    decreases |acts|, 0
  {
    hide TagNos;
    hide Apart;
    var w := s.writer.value;
    FirstTag(tags, w.tag);
    var p := tags[0].no;
    var t := P.Apply(s, acts[0]);
    assert t == s.(free := s.free[p := tags[0].xid], writer := P.Some(w.(freeing := w.freeing - {p})));
    StoresRun(t, acts[1..], spare, tags[1..]);
    assert w.freeing - {p} - Set(TagNos(tags[1..])) == w.freeing - Set(TagNos(tags));
  }

  lemma {:induction false} OpenRun(s: P.State, acts: seq<P.Action>, spare: seq<nat>, tags: seq<Tag>)
    requires Stores(acts, spare, tags) && InHand(s, spare, tags) && acts != [] && acts[0].alloc.OpenList?
    ensures P.Possible(s, acts) && P.After(s, acts) == Stored(s, Set(spare), tags)
    decreases |acts|, 0
  {
    hide TagNos;
    hide Apart;
    var t := P.Apply(s, acts[0]);
    assert P.Enabled(s, acts[0]) && P.Enabled(t, acts[1]) && P.Apply(t, acts[1]) == s;
    StoresRun(s, acts[2..], spare, tags);
    assert acts[1..][1..] == acts[2..] && acts[1..][0] == acts[1];
  }

  lemma {:induction false} ListsMore(free: map<nat, nat>, had: seq<Tag>, tags: seq<Tag>)
    requires Lists(free, had) && Apart(TagNos(had + tags))
    ensures Lists(Listed(free, tags), had + tags)
    decreases |tags|
  {
    if tags == [] {
      assert had + tags == had;
    } else {
      var now := had + [tags[0]];
      assert now + tags[1..] == had + tags;
      ListsOne(free, had, tags);
      ListsMore(free[tags[0].no := tags[0].xid], now, tags[1..]);
    }
  }

  lemma {:induction false} ListsOne(free: map<nat, nat>, had: seq<Tag>, tags: seq<Tag>)
    requires tags != [] && Lists(free, had) && Apart(TagNos(had + tags))
    ensures Lists(free[tags[0].no := tags[0].xid], had + [tags[0]])
  {
    var t, all := tags[0], had + tags;
    TagNosAt(all);
    forall i | 0 <= i < |had| ensures had[i].no != t.no {
      assert all[i] == had[i] && all[|had|] == t && TagNos(all)[i] != TagNos(all)[|had|];
    }
    TagNosAppend(had, [t]);
    assert TagNos([t]) == [t.no];
  }

  lemma {:induction false} InHandApart(mid: multiset<nat>, spare: seq<nat>, nos: seq<nat>, end: nat)
    requires Separate(mid + multiset(spare) + multiset(nos), end)
    ensures Apart(spare) && Apart(nos)
  {
    forall p ensures multiset(spare)[p] <= 1 && multiset(nos)[p] <= 1 {
      assert (mid + multiset(spare) + multiset(nos))[p] <= 1;
    }
    OnceApart(spare);
    OnceApart(nos);
  }

  lemma {:induction false} AllApart(mid: seq<Page>, spare: seq<nat>, tags: seq<Tag>, end: nat)
    requires ChainOk(mid) && Separate(Held(mid) + multiset(spare) + multiset(TagNos(tags)), end)
    ensures Apart(TagNos(ChainTags(mid) + tags))
  {
    hide PageOk;
    hide ChainTags;
    TagNosAppend(ChainTags(mid), tags);
    var a, b := TagNos(ChainTags(mid)), TagNos(tags);
    forall p ensures multiset(a + b)[p] <= 1 {
      assert (Held(mid) + multiset(spare) + multiset(b))[p] <= 1;
    }
    OnceApart(a + b);
  }

  /** Whatever the order of the writes, storing freed pages is a run of the writer's steps, from the chain before to the
      chain that `Alloc.Store` leaves. */
  lemma {:induction false} StoreRuns(s: P.State, mid: seq<Page>, chain: seq<Page>, spare: seq<nat>, tags: seq<Tag>, acts: seq<P.Action>, end: nat)
    requires Shown(s, mid, end) && ChainOk(mid) && Separate(Held(mid) + multiset(spare) + multiset(TagNos(tags)), end)
    requires ChainOk(chain) && ChainTags(chain) == ChainTags(mid) + tags && Nos(chain) == Nos(mid) + spare
    requires s.writer.Some? && s.stale == {} && P.Busy(s.writer.value) && Since(tags, s.writer.value.tag)
    requires Set(spare) <= s.writer.value.spare && Set(TagNos(tags)) <= s.writer.value.freeing
    requires Stores(acts, spare, tags)
    ensures P.Possible(s, acts) && Shown(P.After(s, acts), chain, end) && P.After(s, acts).stale == {}
    ensures var w := s.writer.value;
            P.After(s, acts).writer == P.Some(w.(spare := w.spare - Set(spare), freeing := w.freeing - Set(TagNos(tags))))
  {
    hide PageOk;
    hide ChainTags;
    hide P.Possible;
    hide P.After;
    hide Separate;
    hide Stores;
    hide Lists;
    hide Listed;
    hide Apart;
    hide Since;
    hide TagNos;
    InHandApart(Held(mid), spare, TagNos(tags), end);
    AllApart(mid, spare, tags, end);
    StoresRun(s, acts, spare, tags);
    ListsMore(s.free, ChainTags(mid), tags);
    assert Set(Nos(mid)) + Set(spare) == Set(Nos(mid) + spare);
  }

  /** While a list is opened, the file lists what the half-open page lists: the pages listed before, and the stale ones. */
  lemma {:induction false} OpenShown(s: P.State, chain: seq<Page>, end: nat, xid: nat, stale: seq<nat>)
    requires Shown(s, chain, end) && ChainOk(chain) && Opens(Tail(chain), xid) && |stale| == Tail(chain).junk.npages
    requires PageOk(HalfOpen(Tail(chain), stale))
    requires s.writer.Some? && s.stale == {} && P.Busy(s.writer.value)
    ensures var t := P.Apply(s, P.ByAlloc(P.OpenList(Set(stale))));
            var half := chain[..|chain| - 1] + [HalfOpen(Tail(chain), stale)];
            && PagesOk(half) && TagNos(ChainTags(half)) == TagNos(ChainTags(chain)) + stale && t.free == s.free && t.stale == Set(stale)
            && (t.stale == {} <==> ChainTags(half) == ChainTags(chain))
  {
    hide PageOk;
    hide PageTags;
    hide ChainTags;
    hide HalfOpen;
    var g, h := Tail(chain), HalfOpen(Tail(chain), stale);
    HalfOpenTags(g, xid, stale);
    HalfOpenLast(g, stale);
    LastTagsKept(chain, h, Tags(g.junk.xid, stale));
    TagNosAppend(ChainTags(chain), Tags(g.junk.xid, stale));
    assert TagNos(Tags(g.junk.xid, stale)) == stale;
    assert stale != [] ==> stale[0] in Set(stale);
  }

  lemma {:induction false} HalfOpenLast(g: Page, stale: seq<nat>)
    ensures HalfOpen(g, stale).no == g.no && HalfOpen(g, stale).lists != []
  {
  }
}
