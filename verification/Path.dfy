/** Cleaning a path in place (lib/path.c ed_path_clean). */
module Path {

  // ---- what a path means

  /** The length of the element at the start of `s`. */
  function ElemLen(s: string): (n: nat)
    ensures n <= |s| && (forall i | 0 <= i < n :: s[i] != '/') && (n < |s| ==> s[n] == '/')
  {
    if s == "" || s[0] == '/' then 0 else 1 + ElemLen(s[1..])
  }

  /** The elements between slashes, without empty ones. */
  function Elems(s: string): seq<string>
    decreases |s|
  {
    if s == "" then []
    else if s[0] == '/' then Elems(s[1..])
    else [s[..ElemLen(s)]] + Elems(s[ElemLen(s)..])
  }

  /** One element on the stack of those that lead to the place: "." stays, ".." goes back where it can. */
  function Enter(stack: seq<string>, e: string, rooted: bool): seq<string> {
    if e == "." then stack
    else if e != ".." then stack + [e]
    else if stack != [] && stack[|stack| - 1] != ".." then stack[..|stack| - 1]
    else if rooted then stack
    else stack + [e]
  }

  function Resolve(stack: seq<string>, elems: seq<string>, rooted: bool): seq<string>
    decreases |elems|
  {
    if elems == [] then stack else Resolve(Enter(stack, elems[0], rooted), elems[1..], rooted)
  }

  function Join(elems: seq<string>): string {
    if elems == [] then "" else if |elems| == 1 then elems[0] else Join(elems[..|elems| - 1]) + "/" + elems[|elems| - 1]
  }

  predicate Rooted(s: string) {
    s != "" && s[0] == '/'
  }

  /** The cleaned path. A rooted path that comes back to the root keeps its slash only if nothing went back. */
  function Clean(s: string): string {
    var elems := Elems(s);
    var stack := Resolve([], elems, Rooted(s));
    if stack == [] then (if Rooted(s) && ".." !in elems then "/" else ".")
    else if Rooted(s) then "/" + Join(stack)
    else Join(stack)
  }

  // ---- stacks that a path can lead to

  predicate Plain(e: string) {
    e != "" && '/' !in e
  }

  /** Plain elements, none of them ".", and ".." only at the bottom of an unrooted one. */
  predicate Good(stack: seq<string>, rooted: bool) {
    && (forall i | 0 <= i < |stack| :: Plain(stack[i]) && stack[i] != ".")
    && (forall i | 0 <= i < |stack| && stack[i] == ".." :: !rooted && forall j | 0 <= j < i :: stack[j] == "..")
  }

  lemma {:induction false} EnterGood(stack: seq<string>, e: string, rooted: bool)
    requires Good(stack, rooted) && Plain(e)
    ensures Good(Enter(stack, e, rooted), rooted)
  {
  }

  lemma {:induction false} ResolveAppend(stack: seq<string>, elems: seq<string>, e: string, rooted: bool)
    ensures Resolve(stack, elems + [e], rooted) == Enter(Resolve(stack, elems, rooted), e, rooted)
    decreases |elems|
  {
    if elems == [] {
      assert elems + [e] == [e];
    } else {
      assert (elems + [e])[1..] == elems[1..] + [e];
      ResolveAppend(Enter(stack, elems[0], rooted), elems[1..], e, rooted);
    }
  }

  // ---- how the buffer shows a stack

  /** The written part of the buffer. `lost` is whether going back at the root took its slash. */
  function Render(stack: seq<string>, rooted: bool, lost: bool): string {
    if stack == [] then (if rooted && !lost then "/" else "") else if rooted then "/" + Join(stack) else Join(stack)
  }

  lemma {:induction false} JoinPush(stack: seq<string>, e: string)
    ensures Join(stack + [e]) == if stack == [] then e else Join(stack) + "/" + e
  {
    assert stack != [] ==> (stack + [e])[..|stack|] == stack;
  }

  lemma {:induction false} RenderPush(stack: seq<string>, e: string, rooted: bool, lost: bool)
    requires lost ==> rooted && stack == []
    ensures Render(stack + [e], rooted, false)
         == Render(stack, rooted, lost) + (if stack == [] && (!rooted || !lost) then e else "/" + e)
  {
    JoinPush(stack, e);
    if stack == [] {
      assert [] + [e] == [e];
    }
  }

  /** How many ".." an unrooted stack starts with. */
  function Dots(stack: seq<string>): (n: nat)
    ensures n <= |stack| && (forall i | 0 <= i < n :: stack[i] == "..") && (n < |stack| ==> stack[n] != "..")
  {
    if stack != [] && stack[0] == ".." then 1 + Dots(stack[1..]) else 0
  }

  /** The floor below which nothing is taken back. */
  function Floor(stack: seq<string>, rooted: bool): nat {
    if rooted then 0 else |Join(stack[..Dots(stack)])|
  }

  lemma {:induction false} JoinGrows(stack: seq<string>, i: nat)
    requires i <= |stack| && forall j | 0 <= j < |stack| :: stack[j] != ""
    ensures |Join(stack[..i])| <= |Join(stack)| && (i < |stack| ==> |Join(stack[..i])| < |Join(stack)|)
    decreases |stack|
  {
    if i < |stack| {
      var front := stack[..|stack| - 1];
      assert stack == front + [stack[|stack| - 1]];
      JoinPush(front, stack[|stack| - 1]);
      assert front[..i] == stack[..i];
      JoinGrows(front, i);
    } else {
      assert stack[..i] == stack;
    }
  }

  lemma {:induction false} DotsAre(stack: seq<string>, k: nat)
    requires k <= |stack| && (forall i | 0 <= i < k :: stack[i] == "..") && (k < |stack| ==> stack[k] != "..")
    ensures Dots(stack) == k
    decreases |stack|
  {
    if k > 0 {
      DotsAre(stack[1..], k - 1);
    }
  }

  lemma {:induction false} FloorPush(stack: seq<string>, e: string, rooted: bool)
    requires e != ".." || rooted
    ensures Floor(stack + [e], rooted) == Floor(stack, rooted)
  {
    if !rooted {
      DotsAre(stack + [e], Dots(stack));
      assert (stack + [e])[..Dots(stack)] == stack[..Dots(stack)];
    }
  }

  lemma {:induction false} FloorPop(stack: seq<string>, rooted: bool)
    requires stack != [] && stack[|stack| - 1] != ".."
    ensures Floor(stack[..|stack| - 1], rooted) == Floor(stack, rooted)
  {
    if !rooted {
      var front := stack[..|stack| - 1];
      DotsAre(front, Dots(stack));
      assert front[..Dots(stack)] == stack[..Dots(stack)];
    }
  }

  lemma {:induction false} FloorDots(stack: seq<string>)
    requires Good(stack, false) && (stack == [] || stack[|stack| - 1] == "..")
    ensures Floor(stack, false) == |Join(stack)| && Floor(stack + [".."], false) == |Join(stack + [".."])|
  {
    DotsAre(stack, |stack|);
    DotsAre(stack + [".."], |stack| + 1);
    assert stack[..|stack|] == stack && (stack + [".."])[..|stack| + 1] == stack + [".."];
  }

  /** The code can go back exactly when the text reaches above the floor. */
  lemma {:induction false} CanGoBack(stack: seq<string>, rooted: bool, lost: bool)
    requires Good(stack, rooted) && (lost ==> rooted && stack == [])
    ensures |Render(stack, rooted, lost)| > Floor(stack, rooted)
            <==> if stack == [] then rooted && !lost else stack[|stack| - 1] != ".."
  {
    if stack == [] {
      assert stack[..0] == [];
    } else if !rooted {
      if stack[|stack| - 1] == ".." {
        FloorDots(stack);
      } else {
        assert Dots(stack) < |stack|;
        JoinGrows(stack, Dots(stack));
      }
    }
  }

  /** Where the text of the stack without its last element ends. */
  lemma {:induction false} PopPlace(stack: seq<string>, rooted: bool)
    requires Good(stack, rooted) && stack != [] && stack[|stack| - 1] != ".."
    ensures var text, front := Render(stack, rooted, false), stack[..|stack| - 1];
            var t := |Render(front, rooted, rooted && front == [])|;
            && Floor(stack, rooted) <= t < |text| && text[..t] == Render(front, rooted, rooted && front == [])
            && (t == Floor(stack, rooted) || text[t] == '/')
            && (forall x | t < x < |text| :: text[x] != '/')
  {
    var front, e := stack[..|stack| - 1], stack[|stack| - 1];
    assert stack == front + [e];
    RenderPush(front, e, rooted, false);
    FloorPop(stack, rooted);
    if front == [] {
      assert front[..0] == [];
      assert rooted ==> Render(stack, rooted, false) == "/" + e;
    } else if !rooted {
      JoinGrows(front, Dots(front));
    }
    assert Plain(e);
  }

  /** The search back for a slash. */
  method Back(buf: array<char>, from: nat, up: nat) returns (w: nat)
    requires up < from <= buf.Length
    ensures up <= w < from && (w == up || buf[w] == '/') && forall x | w < x < from :: buf[x] != '/'
  {
    w := from - 1;
    while w > up && buf[w] != '/'
      invariant up <= w < from && forall x | w < x < from :: buf[x] != '/'
    {
      w := w - 1;
    }
  }

  lemma {:induction false} BackPlace(text: string, up: nat, w: nat, t: nat)
    requires up <= t < |text| && (t == up || text[t] == '/') && (forall x | t < x < |text| :: text[x] != '/')
    requires up <= w < |text| && (w == up || text[w] == '/') && (forall x | w < x < |text| :: text[x] != '/')
    ensures w == t
  {
  }

  /** The copy of one element, which may overlap itself but never runs ahead of what is still to be read. */
  method Copy(buf: array<char>, at: nat, from: nat, len: nat) returns (w: nat, p: nat)
    requires at <= from < len <= buf.Length
    modifies buf
    ensures var rest := old(buf[from..len]);
            && p == from + ElemLen(rest) && w == at + ElemLen(rest) && w <= p <= len
            && buf[..w] == old(buf[..at]) + rest[..ElemLen(rest)]
    ensures forall x | p <= x < buf.Length :: buf[x] == old(buf[x])
  {
    hide ElemLen;
    w, p := at, from;
    ghost var rest := buf[from..len];
    while p < len && buf[p] != '/'
      invariant from <= p <= len && w == at + (p - from)
      invariant buf[..w] == old(buf[..at]) + rest[..p - from]
      invariant forall x | p <= x < buf.Length :: buf[x] == old(buf[x])
      invariant forall x | 0 <= x < p - from :: rest[x] != '/'
    {
      assert buf[p] == rest[p - from];
      buf[w] := buf[p];
      w, p := w + 1, p + 1;
      assert buf[..w] == buf[..w - 1] + [buf[w - 1]];
      assert rest[..p - from] == rest[..p - from - 1] + [rest[p - from - 1]];
    }
    ElemLenIs(rest, p - from);
  }

  lemma {:induction false} ElemLenIs(s: string, n: nat)
    requires n <= |s| && (forall i | 0 <= i < n :: s[i] != '/') && (n < |s| ==> s[n] == '/')
    ensures ElemLen(s) == n
  {
  }

  // ---- the loop

  /** The buffer shows `stack`, the rest of the path is unread and intact behind it. */
  ghost predicate Shown(buf: seq<char>, s: string, stack: seq<string>, rooted: bool, lost: bool, w: nat, p: nat) {
    && p <= |s| <= |buf| && w <= |buf| && buf[..w] == Render(stack, rooted, lost)
    && (forall x | p <= x < |s| :: buf[x] == s[x])
    && (lost ==> rooted && stack == [])
  }

  /** The reader stands before an element or a slash; the writer is behind it, by one if a slash lies between. */
  predicate Room(s: string, rooted: bool, w: nat, p: nat)
    requires p <= |s|
  {
    var start := if rooted then 1 else 0;
    if p == 0 then w == start
    else w <= p && (s[p - 1] == '/' ==> w <= start || w < p) && (s[p - 1] == '/' || p == |s| || s[p] == '/')
  }

  lemma {:induction false} SlashRoom(s: string, rooted: bool, w: nat, p: nat)
    requires p < |s| && s[p] == '/' && Room(s, rooted, w, p) && (p == 0 ==> rooted)
    ensures Room(s, rooted, w, p + 1) && Elems(s[p..]) == Elems(s[p + 1..])
  {
    assert s[p..][1..] == s[p + 1..];
  }

  /** The element at `p` and what comes behind it. */
  lemma {:induction false} ElemAt(s: string, p: nat)
    requires p < |s| && s[p] != '/'
    ensures var n := ElemLen(s[p..]);
            && 0 < n && p + n <= |s| && Elems(s[p..]) == [s[p..p + n]] + Elems(s[p + n..]) && Plain(s[p..p + n])
            && (p + n == |s| || s[p + n] == '/') && s[p + n - 1] != '/'
  {
    var n := ElemLen(s[p..]);
    assert s[p..][..n] == s[p..p + n] && s[p..][n..] == s[p + n..];
    assert forall i | 0 <= i < n :: s[p..p + n][i] == s[p..][i];
    assert s[p..][n - 1] == s[p + n - 1];
  }

  /** "." and ".." by their first characters, as the code tells them. */
  lemma {:induction false} DotElem(s: string, p: nat)
    requires p < |s| && s[p] == '.'
    ensures s[p..p + ElemLen(s[p..])] == "." <==> p + 1 == |s| || s[p + 1] == '/'
    ensures s[p..p + ElemLen(s[p..])] == ".." <==> p + 1 < |s| && s[p + 1] == '.' && (p + 2 == |s| || s[p + 2] == '/')
  {
    var n := ElemLen(s[p..]);
    ElemAt(s, p);
    if p + 1 == |s| || s[p + 1] == '/' {
      ElemLenIs(s[p..], 1);
    } else if s[p + 1] == '.' && (p + 2 == |s| || s[p + 2] == '/') {
      ElemLenIs(s[p..], 2);
    }
    assert s[p..p + n][0] == s[p] && (n > 1 ==> s[p..p + n][1] == s[p + 1]);
  }

  /** The elements read so far and the stack they led to. */
  ghost predicate Progress(s: string, rooted: bool, stack: seq<string>, done: seq<string>, p: nat) {
    p <= |s| && Good(stack, rooted) && stack == Resolve([], done, rooted) && Elems(s) == done + Elems(s[p..])
  }

  ghost predicate Inv(buf: seq<char>, s: string, rooted: bool, stack: seq<string>, lost: bool, done: seq<string>, w: nat, p: nat, up: nat) {
    && Shown(buf, s, stack, rooted, lost, w, p) && Room(s, rooted, w, p) && up == Floor(stack, rooted)
    && Progress(s, rooted, stack, done, p)
    && (rooted && stack == [] ==> (lost <==> ".." in done))
    && (p == 0 && s != "" ==> rooted == (s[0] == '/'))
  }

  /** One more element read: what it does to the stack and the list of elements. */
  lemma {:induction false} ReadElem(s: string, rooted: bool, stack: seq<string>, done: seq<string>, p: nat)
    requires p < |s| && s[p] != '/' && Progress(s, rooted, stack, done, p)
    ensures var n := ElemLen(s[p..]);
            var e := s[p..p + n];
            && 0 < n && p + n <= |s| && Plain(e) && |e| == n && Good(stack, rooted)
            && Progress(s, rooted, Enter(stack, e, rooted), done + [e], p + n)
            && (p + n == |s| || s[p + n] == '/') && s[p + n - 1] != '/'
  {
    hide Elems;
    hide Resolve;
    hide Good;
    hide ElemLen;
    hide Plain;
    hide Enter;
    ElemAt(s, p);
    var e := s[p..p + ElemLen(s[p..])];
    EnterGood(stack, e, rooted);
    ResolveAppend([], done, e, rooted);
  }

  lemma {:induction false} TwoDots(s: string, p: nat)
    requires p <= |s| && p + ElemLen(s[p..]) <= |s| && s[p..p + ElemLen(s[p..])] == ".."
    ensures ElemLen(s[p..]) == 2 && p + 2 <= |s|
  {
    assert |s[p..p + ElemLen(s[p..])]| == 2;
  }

  /** ".." where the text can be cut back. */
  lemma {:induction false} BackKept(buf: seq<char>, s: string, rooted: bool, stack: seq<string>, lost: bool, done: seq<string>, w: nat, p: nat, up: nat, w': nat)
    requires Inv(buf, s, rooted, stack, lost, done, w, p, up) && p + 2 <= |s| && s[p..p + ElemLen(s[p..])] == ".." && s[p] != '/'
    requires up < w && up <= w' < w && (w' == up || buf[w'] == '/') && (forall x | w' < x < w :: buf[x] != '/')
    ensures var st := Enter(stack, "..", rooted); Inv(buf, s, rooted, st, rooted && st == [], done + [".."], w', p + 2, up)
  {
    hide Progress;
    hide Join;
    hide Dots;
    hide Good;
    hide Plain;
    hide ElemLen;
    hide Floor;
    ReadElem(s, rooted, stack, done, p);
    TwoDots(s, p);
    CanGoBack(stack, rooted, lost);
    if stack != [] {
      PopPlace(stack, rooted);
      FloorPop(stack, rooted);
      BackPlace(buf[..w], up, w', |Render(stack[..|stack| - 1], rooted, rooted && |stack| == 1)|);
      assert buf[..w][..w'] == buf[..w'];
    }
  }

  /** An element that changes nothing: ".", or ".." at a root already lost. */
  lemma {:induction false} StayKept(buf: seq<char>, s: string, rooted: bool, stack: seq<string>, lost: bool, done: seq<string>, w: nat, p: nat, up: nat)
    requires Inv(buf, s, rooted, stack, lost, done, w, p, up) && p < |s| && s[p] != '/'
    requires var e := s[p..p + ElemLen(s[p..])]; e == "." || (e == ".." && rooted && lost)
    ensures var e := s[p..p + ElemLen(s[p..])]; Inv(buf, s, rooted, stack, lost, done + [e], w, p + |e|, up)
  {
    hide Progress;
    hide Join;
    hide Dots;
    hide Good;
    hide Plain;
    hide ElemLen;
    hide Floor;
    ReadElem(s, rooted, stack, done, p);
  }

  /** ".." below which there is nothing: it becomes part of the floor. */
  lemma {:induction false} DotsKept(buf: seq<char>, t: seq<char>, s: string, stack: seq<string>, done: seq<string>, w: nat, p: nat, up: nat, w': nat)
    requires Inv(buf, s, false, stack, false, done, w, p, up) && p < |s| && s[p] != '/' && s[p..p + ElemLen(s[p..])] == ".." && w <= up
    requires |t| == |buf| && w' == w + (if w > 0 then 3 else 2) <= |t| && t[..w'] == buf[..w] + (if w > 0 then "/.." else "..")
    requires forall x | w' <= x < |buf| :: t[x] == buf[x]
    ensures Inv(t, s, false, stack + [".."], false, done + [".."], w', p + 2, w')
  {
    hide Progress;
    hide Dots;
    hide Good;
    hide Plain;
    hide ElemLen;
    hide Floor;
    hide Join;
    ReadElem(s, false, stack, done, p);
    TwoDots(s, p);
    CanGoBack(stack, false, false);
    FloorDots(stack);
    RenderPush(stack, "..", false, false);
    EmptyText(stack, false);
  }

  lemma {:induction false} EmptyText(stack: seq<string>, rooted: bool)
    requires Good(stack, rooted)
    ensures Join(stack) == "" <==> stack == []
  {
    if stack != [] {
      JoinGrows(stack, 0);
      assert stack[..0] == [];
    }
  }

  lemma {:induction false} PushShown(buf: seq<char>, t: seq<char>, s: string, rooted: bool, stack: seq<string>, lost: bool,
                                     w: nat, p: nat, e: string, w': nat)
    requires Shown(buf, s, stack, rooted, lost, w, p) && Good(stack, rooted) && p + |e| <= |s|
    requires |t| == |buf| && w' == w + |e| + (if w != (if rooted then 1 else 0) then 1 else 0) <= |t|
    requires t[..w'] == buf[..w] + (if w != (if rooted then 1 else 0) then "/" else "") + e
    requires forall x | p + |e| <= x < |buf| :: t[x] == buf[x]
    ensures Shown(t, s, stack + [e], rooted, false, w', p + |e|)
  {
    hide Good;
    hide Join;
    RenderPush(stack, e, rooted, lost);
    EmptyText(stack, rooted);
    assert |buf[..w]| == w;
  }

  /** A real element, with a slash before it where there is text already. */
  lemma {:induction false} PushKept(buf: seq<char>, t: seq<char>, s: string, rooted: bool, stack: seq<string>, lost: bool, done: seq<string>,
                                    w: nat, p: nat, up: nat, w': nat)
    requires Inv(buf, s, rooted, stack, lost, done, w, p, up) && p < |s| && s[p] != '/'
    requires var e := s[p..p + ElemLen(s[p..])];
             && e != "." && e != ".."
             && |t| == |buf| && w' == w + |e| + (if w != (if rooted then 1 else 0) then 1 else 0) <= p + |e|
             && t[..w'] == buf[..w] + (if w != (if rooted then 1 else 0) then "/" else "") + e
             && forall x | p + |e| <= x < |buf| :: t[x] == buf[x]
    ensures var e := s[p..p + ElemLen(s[p..])]; Inv(t, s, rooted, stack + [e], false, done + [e], w', p + |e|, up)
  {
    hide Progress;
    hide Dots;
    hide Good;
    hide Plain;
    hide ElemLen;
    hide Floor;
    hide Join;
    hide Shown;
    InvFacts(buf, s, rooted, stack, lost, done, w, p, up);
    ReadElem(s, rooted, stack, done, p);
    var e := s[p..p + ElemLen(s[p..])];
    FloorPush(stack, e, rooted);
    PushShown(buf, t, s, rooted, stack, lost, w, p, e, w');
  }

  lemma {:induction false} InvStart(buf: seq<char>, s: string, rooted: bool)
    requires |s| <= |buf| && buf != [] && s == buf[..|s|] && rooted == (buf[0] == '/') && (s == "" ==> !rooted)
    ensures Inv(buf, s, rooted, [], false, [], if rooted then 1 else 0, 0, 0)
  {
    assert s[0..] == s && buf[..0] == "" && (rooted ==> buf[..1] == "/");
    var none: seq<string> := [];
    assert none[..Dots(none)] == [];
  }

  /** What the code reads is the path, and what it is about to write fits in front of it. */
  lemma {:induction false} InvFacts(buf: seq<char>, s: string, rooted: bool, stack: seq<string>, lost: bool, done: seq<string>, w: nat, p: nat, up: nat)
    requires Inv(buf, s, rooted, stack, lost, done, w, p, up) && p < |s|
    ensures |s| <= |buf| && w <= |buf| && (lost ==> rooted) && forall x | p <= x < |s| :: buf[x] == s[x]
    ensures s[p] != '/' ==> (if w == (if rooted then 1 else 0) then w <= p else w < p)
  {
    hide Progress;
    hide Join;
    hide Dots;
    hide Good;
    hide Floor;
  }

  lemma {:induction false} SlashKept(buf: seq<char>, s: string, rooted: bool, stack: seq<string>, lost: bool, done: seq<string>, w: nat, p: nat, up: nat)
    requires Inv(buf, s, rooted, stack, lost, done, w, p, up) && p < |s| && s[p] == '/'
    ensures Inv(buf, s, rooted, stack, lost, done, w, p + 1, up)
  {
    hide Elems;
    hide Resolve;
    hide Join;
    hide Dots;
    hide Good;
    hide Floor;
    SlashRoom(s, rooted, w, p);
  }

  lemma {:induction false} RootLost(buf: seq<char>, s: string, rooted: bool, stack: seq<string>, lost: bool, done: seq<string>, w: nat, p: nat, up: nat)
    requires Inv(buf, s, rooted, stack, lost, done, w, p, up) && rooted && w <= up
    ensures lost
  {
    hide Elems;
    hide Resolve;
    hide Join;
    hide Dots;
    CanGoBack(stack, rooted, lost);
  }

  lemma {:induction false} NoDots(s: string, p: nat)
    requires p < |s| && s[p] != '/' && !(s[p] == '.' && (p + 1 == |s| || s[p + 1] == '/'))
    requires !(s[p] == '.' && s[p + 1] == '.' && (p + 2 == |s| || s[p + 2] == '/'))
    ensures var n := ElemLen(s[p..]); p + n <= |s| && s[p..p + n] != "." && s[p..p + n] != ".."
  {
    ElemAt(s, p);
    if s[p] == '.' {
      DotElem(s, p);
    } else {
      assert s[p..p + ElemLen(s[p..])][0] == s[p];
    }
  }

  /** At the end the text is the cleaned path, but for one that is empty. */
  lemma {:induction false} CleanIs(buf: seq<char>, s: string, rooted: bool, stack: seq<string>, lost: bool, done: seq<string>, w: nat, p: nat, up: nat)
    requires Inv(buf, s, rooted, stack, lost, done, w, p, up) && p == |s| && rooted == Rooted(s)
    ensures w <= |buf| && (w <= |s|) && if w == 0 then Clean(s) == "." else buf[..w] == Clean(s)
  {
    hide Resolve;
    hide Join;
    hide Dots;
    hide Floor;
    assert s[p..] == "" && done + [] == done;
    EmptyText(stack, rooted);
  }

  /** Writes ".." behind the text. */
  method AppendDots(buf: array<char>, at: nat) returns (w: nat)
    requires at + (if at > 0 then 3 else 2) <= buf.Length
    modifies buf
    ensures w == at + (if at > 0 then 3 else 2) && buf[..w] == old(buf[..at]) + (if at > 0 then "/.." else "..")
    ensures forall x | w <= x < buf.Length :: buf[x] == old(buf[x])
  {
    w := at;
    if w > 0 {
      buf[w] := '/';
      w := w + 1;
    }
    buf[w] := '.';
    buf[w + 1] := '.';
    w := w + 2;
  }

  /** Writes the element at `from` behind the text. */
  method AppendElem(buf: array<char>, at: nat, from: nat, len: nat, slash: bool) returns (w: nat, p: nat)
    requires at + (if slash then 1 else 0) <= from < len <= buf.Length
    modifies buf
    ensures var e := old(buf[from..len])[..ElemLen(old(buf[from..len]))];
            && p == from + |e| && w == at + |e| + (if slash then 1 else 0) && w <= p <= len
            && buf[..w] == old(buf[..at]) + (if slash then "/" else "") + e
    ensures forall x | p <= x < buf.Length :: buf[x] == old(buf[x])
  {
    w := at;
    ghost var rest := buf[from..len];
    if slash {
      buf[w] := '/';
      w := w + 1;
    }
    assert buf[from..len] == rest;
    assert buf[..w] == old(buf[..at]) + (if slash then "/" else "");
    w, p := Copy(buf, w, from, len);
  }

  /** The ".." case of the loop. */
  method Parent(buf: array<char>, rooted: bool, at: nat, p: nat, floor: nat,
                ghost s: string, ghost stack: seq<string>, ghost lost: bool, ghost done: seq<string>)
    returns (w: nat, up: nat, ghost stack': seq<string>, ghost lost': bool)
    requires Inv(buf[..], s, rooted, stack, lost, done, at, p, floor)
    requires p + 2 <= |s| && s[p] == '.' && s[p..p + ElemLen(s[p..])] == ".."
    modifies buf
    ensures Inv(buf[..], s, rooted, stack', lost', done + [".."], w, p + 2, up)
    ensures forall x | |s| <= x < buf.Length :: buf[x] == old(buf[x])
  {
    hide Inv;
    hide ElemLen;
    InvFacts(buf[..], s, rooted, stack, lost, done, at, p, floor);
    w, up, stack', lost' := at, floor, stack, lost;
    if w > up {
      w := Back(buf, w, up);
      BackKept(buf[..], s, rooted, stack, lost, done, at, p, up, w);
      stack' := Enter(stack, "..", rooted);
      lost' := rooted && stack' == [];
    } else if !rooted {
      ghost var was := buf[..];
      w := AppendDots(buf, w);
      DotsKept(was, buf[..], s, stack, done, at, p, floor, w);
      up, stack' := w, stack + [".."];
    } else {
      RootLost(buf[..], s, rooted, stack, lost, done, w, p, up);
      StayKept(buf[..], s, rooted, stack, lost, done, w, p, up);
    }
  }

  lemma {:induction false} ElemSlice(s: string, p: nat)
    requires p < |s| && s[p] != '/'
    ensures 0 < ElemLen(s[p..]) && p + ElemLen(s[p..]) <= |s|
    ensures s[p..][..ElemLen(s[p..])] == s[p..p + ElemLen(s[p..])] && |s[p..p + ElemLen(s[p..])]| == ElemLen(s[p..])
  {
    ElemAt(s, p);
  }

  /** The case of a real element. */
  method Child(buf: array<char>, len: nat, rooted: bool, at: nat, from: nat,
               ghost s: string, ghost stack: seq<string>, ghost lost: bool, ghost done: seq<string>, ghost up: nat)
    returns (w: nat, p: nat)
    requires Inv(buf[..], s, rooted, stack, lost, done, at, from, up) && from < |s| == len && s[from] != '/'
    requires s[from..from + ElemLen(s[from..])] != "." && s[from..from + ElemLen(s[from..])] != ".."
    modifies buf
    ensures var e := s[from..from + ElemLen(s[from..])];
            from < p <= len && Inv(buf[..], s, rooted, stack + [e], false, done + [e], w, p, up)
    ensures forall x | len <= x < buf.Length :: buf[x] == old(buf[x])
  {
    hide Inv;
    hide ElemLen;
    hide Elems;
    hide Plain;
    InvFacts(buf[..], s, rooted, stack, lost, done, at, from, up);
    ghost var was := buf[..];
    assert buf[from..len] == s[from..];
    ElemSlice(s, from);
    w, p := AppendElem(buf, at, from, len, at != if rooted then 1 else 0);
    PushKept(was, buf[..], s, rooted, stack, lost, done, at, from, up, w);
  }

  /** ed_path_clean. Of an empty path it reads the terminator. */
  method CleanPath(buf: array<char>, len: nat) returns (n: nat)
    requires len <= buf.Length && 0 < buf.Length
    modifies buf
    ensures 0 < n <= buf.Length && (n <= len || n == 1)
    ensures buf[..n] == if len == 0 && old(buf[0]) == '/' then "/" else Clean(old(buf[..len]))
    ensures n < len ==> buf[n] == '\0'
    ensures forall x | len <= x < buf.Length && x > 0 :: buf[x] == old(buf[x])
  {
    hide Inv;
    hide Clean;
    hide ElemLen;
    ghost var s := buf[..len];
    var rooted := buf[0] == '/';
    var p: nat, up: nat, w: nat := 0, 0, if rooted then 1 else 0;
    if len == 0 && rooted {
      return w;
    }
    ghost var stack, lost, done := [], false, [];
    InvStart(buf[..], s, rooted);
    while p < len
      invariant Inv(buf[..], s, rooted, stack, lost, done, w, p, up) && p <= len
      invariant forall x | len <= x < buf.Length :: buf[x] == old(buf[x])
      decreases len - p
    {
      InvFacts(buf[..], s, rooted, stack, lost, done, w, p, up);
      if buf[p] == '/' {
        SlashKept(buf[..], s, rooted, stack, lost, done, w, p, up);
        p := p + 1;
      } else if buf[p] == '.' && (p + 1 == len || buf[p + 1] == '/') {
        DotElem(s, p);
        StayKept(buf[..], s, rooted, stack, lost, done, w, p, up);
        p, done := p + 1, done + ["."];
      } else if buf[p] == '.' && buf[p + 1] == '.' && (p + 2 == len || buf[p + 2] == '/') {
        DotElem(s, p);
        w, up, stack, lost := Parent(buf, rooted, w, p, up, s, stack, lost, done);
        p, done := p + 2, done + [".."];
      } else {
        NoDots(s, p);
        ghost var e := s[p..p + ElemLen(s[p..])];
        w, p := Child(buf, len, rooted, w, p, s, stack, lost, done, up);
        stack, lost, done := stack + [e], false, done + [e];
      }
    }
    CleanIs(buf[..], s, rooted, stack, lost, done, w, p, up);
    if w == 0 {
      buf[0] := '.';
      w := 1;
    }
    if w < len {
      buf[w] := '\0';
    }
    n := w;
  }

  // ---- cleaning twice

  lemma {:induction false} ElemsAppend(a: string, b: string)
    ensures Elems(a + "/" + b) == Elems(a) + Elems(b)
    decreases |a|
  {
    var t := a + "/" + b;
    if a == "" {
      assert t[1..] == b;
    } else if a[0] == '/' {
      assert t[1..] == a[1..] + "/" + b;
      ElemsAppend(a[1..], b);
    } else {
      var n := ElemLen(a);
      ElemLenIs(t, n);
      ElemAt(a, 0);
      assert a[0..] == a && t[..n] == a[..n] && t[n..] == a[n..] + "/" + b;
      ElemsAppend(a[n..], b);
    }
  }

  lemma {:induction false} ElemsPlain(s: string)
    ensures forall i | 0 <= i < |Elems(s)| :: Plain(Elems(s)[i])
    decreases |s|
  {
    if s != "" {
      if s[0] == '/' {
        ElemsPlain(s[1..]);
      } else {
        ElemAt(s, 0);
        assert s[0..] == s;
        ElemsPlain(s[ElemLen(s)..]);
      }
    }
  }

  lemma {:induction false} ElemsOne(e: string)
    requires Plain(e)
    ensures Elems(e) == [e]
  {
    ElemLenIs(e, |e|);
    assert e[..|e|] == e && e[|e|..] == "";
  }

  /** The elements of a joined stack are the stack. */
  lemma {:induction false} ElemsJoin(stack: seq<string>)
    requires forall i | 0 <= i < |stack| :: Plain(stack[i])
    ensures Elems(Join(stack)) == stack
    decreases |stack|
  {
    if stack != [] {
      var front, e := stack[..|stack| - 1], stack[|stack| - 1];
      assert stack == front + [e];
      ElemsOne(e);
      JoinPush(front, e);
      if front != [] {
        ElemsJoin(front);
        ElemsAppend(Join(front), e);
      }
    }
  }

  lemma {:induction false} ResolveGood(stack: seq<string>, elems: seq<string>, rooted: bool)
    requires Good(stack, rooted) && forall i | 0 <= i < |elems| :: Plain(elems[i])
    ensures Good(Resolve(stack, elems, rooted), rooted)
    decreases |elems|
  {
    if elems != [] {
      EnterGood(stack, elems[0], rooted);
      ResolveGood(Enter(stack, elems[0], rooted), elems[1..], rooted);
    }
  }

  /** A good stack leads to itself. */
  lemma {:induction false} ResolveSame(stack: seq<string>, elems: seq<string>, rooted: bool)
    requires Good(stack + elems, rooted)
    ensures Resolve(stack, elems, rooted) == stack + elems
    decreases |elems|
  {
    if elems != [] {
      var e := elems[0];
      assert (stack + elems)[|stack|] == e;
      assert stack != [] ==> (stack + elems)[|stack| - 1] == stack[|stack| - 1];
      assert stack + [e] + elems[1..] == stack + elems;
      ResolveSame(stack + [e], elems[1..], rooted);
    } else {
      assert stack + elems == stack;
    }
  }

  lemma {:induction false} JoinStart(stack: seq<string>)
    requires stack != [] && forall i | 0 <= i < |stack| :: Plain(stack[i])
    ensures Join(stack) != "" && Join(stack)[0] != '/'
    decreases |stack|
  {
    var front, e := stack[..|stack| - 1], stack[|stack| - 1];
    assert stack == front + [e];
    JoinPush(front, e);
    if front != [] {
      JoinStart(front);
    }
  }

  /** Cleaning a clean path changes nothing. */
  lemma {:induction false} CleanTwice(s: string)
    ensures Clean(Clean(s)) == Clean(s)
  {
    hide Resolve;
    hide Join;
    hide Elems;
    var elems, rooted := Elems(s), Rooted(s);
    var stack := Resolve([], elems, rooted);
    ElemsPlain(s);
    ResolveGood([], elems, rooted);
    if stack == [] {
      CleanRoot();
    } else {
      ElemsJoin(stack);
      JoinStart(stack);
      ElemsAppend("", Join(stack));
      NoElems();
      assert "" + "/" + Join(stack) == "/" + Join(stack);
      assert [] + stack == stack;
      ResolveSame([], stack, rooted);
    }
  }

  lemma {:induction false} NoElems()
    ensures Elems("") == []
  {
  }

  lemma {:induction false} CleanRoot()
    ensures Clean("/") == "/" && Clean(".") == "."
  {
    assert "/"[1..] == "";
    ElemsOne(".");
    assert ["."][1..] == [];
  }

  // ---- where a path leads

  /** One element from a directory, given by the names on the way from the root: the parent of the root is the root. */
  function Move(dir: seq<string>, e: string): seq<string> {
    if e == "." then dir
    else if e != ".." then dir + [e]
    else if dir == [] then []
    else dir[..|dir| - 1]
  }

  function Walk(dir: seq<string>, elems: seq<string>): seq<string>
    decreases |elems|
  {
    if elems == [] then dir else Walk(Move(dir, elems[0]), elems[1..])
  }

  /** The directory a path leads to from `dir`. */
  function Leads(dir: seq<string>, s: string): seq<string> {
    Walk(if Rooted(s) then [] else dir, Elems(s))
  }

  lemma {:induction false} WalkAppend(dir: seq<string>, a: seq<string>, e: string)
    ensures Walk(dir, a + [e]) == Move(Walk(dir, a), e)
    decreases |a|
  {
    if a == [] {
      assert a + [e] == [e];
    } else {
      assert (a + [e])[1..] == a[1..] + [e];
      WalkAppend(Move(dir, a[0]), a[1..], e);
    }
  }

  /** Entering an element on the stack leads where the element leads. */
  lemma {:induction false} EnterLeads(dir: seq<string>, stack: seq<string>, e: string, rooted: bool)
    requires Good(stack, rooted) && (rooted ==> dir == [])
    ensures Walk(dir, Enter(stack, e, rooted)) == Move(Walk(dir, stack), e)
  {
    hide Walk;
    if e == ".." {
      if stack != [] && stack[|stack| - 1] != ".." {
        var front, x := stack[..|stack| - 1], stack[|stack| - 1];
        assert stack == front + [x];
        WalkAppend(dir, front, x);
      } else if rooted {
        assert Walk([], []) == [] by { NoWalk([]); }
      } else {
        WalkAppend(dir, stack, e);
      }
    } else if e != "." {
      WalkAppend(dir, stack, e);
    }
  }

  lemma {:induction false} NoWalk(dir: seq<string>)
    ensures Walk(dir, []) == dir
  {
  }

  lemma {:induction false} ResolveLeads(dir: seq<string>, stack: seq<string>, elems: seq<string>, rooted: bool)
    requires Good(stack, rooted) && (rooted ==> dir == []) && forall i | 0 <= i < |elems| :: Plain(elems[i])
    ensures Walk(dir, Resolve(stack, elems, rooted)) == Walk(Walk(dir, stack), elems)
    decreases |elems|
  {
    if elems != [] {
      EnterGood(stack, elems[0], rooted);
      EnterLeads(dir, stack, elems[0], rooted);
      ResolveLeads(dir, Enter(stack, elems[0], rooted), elems[1..], rooted);
    }
  }

  /** The cleaned path has no ".", no empty element and ".." only at its front, unless it is "." or "/"; nothing but
      its elements and the slashes between them is in it. */
  lemma {:induction false} CleanShape(s: string)
    ensures var c := Clean(s);
            || c == "." || c == "/"
            || (Good(Elems(c), Rooted(s)) && Rooted(c) == Rooted(s) && c == (if Rooted(s) then "/" else "") + Join(Elems(c)))
  {
    hide Resolve;
    hide Join;
    hide Elems;
    var elems, rooted := Elems(s), Rooted(s);
    var stack := Resolve([], elems, rooted);
    ElemsPlain(s);
    ResolveGood([], elems, rooted);
    if stack != [] {
      ElemsJoin(stack);
      JoinStart(stack);
      ElemsAppend("", Join(stack));
      NoElems();
      assert "" + "/" + Join(stack) == "/" + Join(stack) && [] + stack == stack && "" + Join(stack) == Join(stack);
    }
  }

  /** The cleaned path leads where the path leads, from every directory, except for a rooted path that goes back to the
      root: it loses its slash, and leads there from the root only. */
  lemma {:induction false} CleanMeans(s: string, dir: seq<string>)
    ensures Leads(dir, Clean(s)) == Leads(dir, s) <==> !(Rooted(s) && ".." in Elems(s) && Leads(dir, s) == [] && dir != [])
  {
    hide Resolve;
    hide Join;
    hide Elems;
    hide Walk;
    var elems, rooted := Elems(s), Rooted(s);
    var from := if rooted then [] else dir;
    var stack := Resolve([], elems, rooted);
    ElemsPlain(s);
    ResolveGood([], elems, rooted);
    ResolveLeads(from, [], elems, rooted);
    NoWalk(from);
    NoWalk(dir);
    NoElems();
    if stack == [] {
      ShortPaths(dir);
    } else {
      ElemsJoin(stack);
      JoinStart(stack);
      ElemsAppend("", Join(stack));
      assert "" + "/" + Join(stack) == "/" + Join(stack) && [] + stack == stack;
      if rooted {
        Somewhere(stack);
      }
    }
  }

  lemma {:induction false} ShortPaths(dir: seq<string>)
    ensures Leads(dir, "/") == [] && Leads(dir, ".") == dir
  {
    assert "/"[1..] == "";
    ElemsOne(".");
    assert ["."][1..] == [];
  }

  /** From the root a stack without ".." leads away. */
  lemma {:induction false} Somewhere(stack: seq<string>)
    requires Good(stack, true) && stack != []
    ensures Walk([], stack) == stack
    decreases |stack|
  {
    var front, e := stack[..|stack| - 1], stack[|stack| - 1];
    assert stack == front + [e];
    WalkAppend([], front, e);
    if front != [] {
      Somewhere(front);
    }
  }

  /** The root reached by going back is not written as the root. */
  lemma {:induction false} RootByParent()
    ensures Clean("/a/..") == "."
  {
    hide Elems;
    hide Join;
    ElemsOne("a");
    ElemsOne("..");
    ElemsAppend("a", "..");
    ElemsAppend("", "a" + "/" + "..");
    NoElems();
    assert "" + "/" + ("a" + "/" + "..") == "/a/..";
    assert Elems("/a/..") == ["a", ".."];
    assert ["a", ".."][1..] == [".."] && [".."][1..] == [];
  }
}
