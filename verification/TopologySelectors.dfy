/** The search that marks the widgets with a choice of inputs: which ways through the graph it
    follows, and which widgets it therefore comes to. */
module TopologySelectors {
  import opened TopologyPaths

  /** The search enters such a widget, */
  predicate Open(g: Graph, nid: nat) { g.Has(nid) && g.At(nid).enabled && g.At(nid).kind != PinComplex }

  /** and marks it if it has several connections. */
  predicate Several(g: Graph, nid: nat) { g.Has(nid) && 1 < |g.At(nid).conns| }

  // ---------------------------------------------------------------------------
  // Ways
  // ---------------------------------------------------------------------------

  /** A way is a node followed by the index of each connection taken.  This is the node it ends
      at; -1 if it does not lead through enabled widgets other than pins. */
  function Ends(g: Graph, way: seq<nat>): (n: int)
    ensures -1 <= n && (n != -1 ==> Open(g, n))
  {
    if |way| == 0 then -1
    else if |way| == 1 then if Open(g, way[0]) then way[0] else -1
    else
      var n := Ends(g, way[..|way| - 1]);
      if n == -1 || |g.At(n).conns| <= way[|way| - 1] then -1
      else if Open(g, g.At(n).conns[way[|way| - 1]]) then g.At(n).conns[way[|way| - 1]] else -1
  }

  /** The order in which a search that always takes the next connection comes to the ends of
      ways. */
  predicate Before(a: seq<nat>, b: seq<nat>) {
    if a == [] then b != []
    else b != [] && (a[0] < b[0] || (a[0] == b[0] && Before(a[1..], b[1..])))
  }

  lemma {:induction false} BeforeOnce(a: seq<nat>, b: seq<nat>)
    requires Before(a, b)
    ensures !Before(b, a) && a != b
  {
    if a != [] && a[0] == b[0] {
      BeforeOnce(a[1..], b[1..]);
    }
  }

  lemma {:induction false} BeforeTotal(a: seq<nat>, b: seq<nat>)
    ensures a == b || Before(a, b) || Before(b, a)
  {
    if a != [] && b != [] && a[0] == b[0] {
      BeforeTotal(a[1..], b[1..]);
      assert a == [a[0]] + a[1..] && b == [b[0]] + b[1..];
    }
  }

  lemma NeverBefore(a: seq<nat>)
    ensures !Before(a, a)
  {
  }

  lemma {:induction false} BeforeTransitive(a: seq<nat>, b: seq<nat>, c: seq<nat>)
    requires Before(a, b) && Before(b, c)
    ensures Before(a, c)
  {
    if a != [] && a[0] == b[0] == c[0] {
      BeforeTransitive(a[1..], b[1..], c[1..]);
    }
  }

  /** A way that goes on comes after, */
  lemma {:induction false} BeforeLonger(a: seq<nat>, b: seq<nat>)
    requires a <= b && a != b
    ensures Before(a, b)
  {
    if a != [] {
      BeforeLonger(a[1..], b[1..]);
    }
  }

  /** and so does one by a later connection. */
  lemma {:induction false} BeforeNext(p: seq<nat>, i: nat, j: nat, a: seq<nat>, b: seq<nat>)
    requires i < j && p + [i] <= a && p + [j] <= b
    ensures Before(a, b)
  {
    if p == [] {
      assert a[0] == i && b[0] == j;
    } else {
      assert a[0] == (p + [i])[0] == p[0] && b[0] == (p + [j])[0] == p[0];
      assert (p + [i])[1..] == p[1..] + [i] && (p + [j])[1..] == p[1..] + [j];
      BeforeNext(p[1..], i, j, a[1..], b[1..]);
    }
  }

  /** What comes before a way comes before those that go on from it, unless it goes on from it too. */
  lemma {:induction false} BeforeAll(a: seq<nat>, b: seq<nat>, c: seq<nat>)
    requires Before(a, b) && b <= c
    ensures Before(a, c)
  {
    if a != [] && a[0] == b[0] {
      BeforeAll(a[1..], b[1..], c[1..]);
    }
  }

  /** The beginning of a way that leads somewhere does too. */
  lemma {:induction false} EndsBefore(g: Graph, way: seq<nat>, i: nat)
    requires Ends(g, way) != -1 && 0 < i <= |way|
    ensures Ends(g, way[..i]) != -1
    ensures i < |way| ==>
              var n := Ends(g, way[..i]);
              way[i] < |g.At(n).conns| && Ends(g, way[..i + 1]) == g.At(n).conns[way[i]]
    decreases |way|
  {
    if i < |way| {
      var w := way[..|way| - 1];
      if i < |w| {
        EndsBefore(g, w, i);
        assert w[..i] == way[..i] && w[..i + 1] == way[..i + 1];
      } else {
        assert way[..i + 1] == way && w == way[..i];
      }
    } else {
      assert way[..i] == way;
    }
  }

  // ---------------------------------------------------------------------------
  // What the search follows
  // ---------------------------------------------------------------------------

  /** `way` begins at one of `starts`, and at each widget with several connections before its
      end it is the way that `ways` has for that widget. */
  ghost predicate Pursued(g: Graph, starts: set<nat>, ways: map<nat, seq<nat>>, way: seq<nat>) {
    && way != [] && way[0] in starts
    && forall i :: 0 < i < |way| ==> Kept(g, ways, way[..i])
  }

  ghost predicate Kept(g: Graph, ways: map<nat, seq<nat>>, way: seq<nat>) {
    var n := Ends(g, way);
    n != -1 && (Several(g, n) ==> n in ways && ways[n] == way)
  }

  /** For each widget with several connections that the search comes to, `ways` has the first
      way it comes to it: of the ways of at most 10 connections that go on, at each such widget
      before, from the first way to that. */
  ghost predicate FirstWays(g: Graph, starts: set<nat>, ways: map<nat, seq<nat>>) {
    Sound(g, starts, ways) && forall way :: Comes(g, starts, ways, way) ==> Taken(g, ways, way)
  }

  ghost predicate Sound(g: Graph, starts: set<nat>, ways: map<nat, seq<nat>>) {
    forall n <- ways :: Several(g, n) && Comes(g, starts, ways, ways[n]) && Ends(g, ways[n]) == n
  }

  ghost predicate Comes(g: Graph, starts: set<nat>, ways: map<nat, seq<nat>>, way: seq<nat>) {
    |way| <= MAX_DEPTH + 1 && Pursued(g, starts, ways, way) && Ends(g, way) != -1 && Several(g, Ends(g, way))
  }

  ghost predicate Taken(g: Graph, ways: map<nat, seq<nat>>, way: seq<nat>)
  {
    Ends(g, way) != -1 && Ends(g, way) in ways && !Before(way, ways[Ends(g, way)])
  }

  // ---------------------------------------------------------------------------
  // One call of the search
  // ---------------------------------------------------------------------------

  /** The search is about to try `way`, which leads to `nid`, a widget or not. */
  ghost predicate AboutToTry(g: Graph, starts: set<nat>, ways: map<nat, seq<nat>>, way: seq<nat>, nid: nat) {
    && Pursued(g, starts, ways, way)
    && Ends(g, way) == (if Open(g, nid) then nid else -1)
    && Sound(g, starts, ways)
    && forall n <- ways :: Before(ways[n], way)
  }

  /** It has tried it: ways were added that go on from it, and all those that do and come to a
      widget with several connections are taken care of. */
  ghost predicate Tried(g: Graph, starts: set<nat>, was: map<nat, seq<nat>>, ways: map<nat, seq<nat>>, way: seq<nat>) {
    && Sound(g, starts, ways) && Added(was, ways, way)
    && forall w :: way <= w && Comes(g, starts, ways, w) ==> Taken(g, ways, w)
  }

  ghost predicate Added(was: map<nat, seq<nat>>, ways: map<nat, seq<nat>>, way: seq<nat>) {
    && (forall n <- was :: n in ways && ways[n] == was[n])
    && (forall n <- ways :: n in was || way <= ways[n])
  }

  lemma TryMeans(g: Graph, starts: set<nat>, ways: map<nat, seq<nat>>, way: seq<nat>, nid: nat)
    requires AboutToTry(g, starts, ways, way, nid)
    ensures way != [] && Sound(g, starts, ways) && Ends(g, way) == if Open(g, nid) then nid else -1
  {
  }

  /** The way leads nowhere, or too far. */
  lemma TriedNothing(g: Graph, starts: set<nat>, ways: map<nat, seq<nat>>, way: seq<nat>)
    requires way != [] && Sound(g, starts, ways) && (Ends(g, way) == -1 || MAX_DEPTH + 1 < |way|)
    ensures Tried(g, starts, ways, ways, way)
  {
    forall w | way <= w
      ensures Comes(g, starts, ways, w) ==> Taken(g, ways, w)
    {
      if Ends(g, w) != -1 {
        EndsBefore(g, w, |way|);
        assert w[..|way|] == way;
      }
    }
  }

  /** It leads to a widget that an earlier way has come to. */
  lemma TriedAgain(g: Graph, starts: set<nat>, ways: map<nat, seq<nat>>, way: seq<nat>, nid: nat)
    requires AboutToTry(g, starts, ways, way, nid) && nid in ways
    ensures Tried(g, starts, ways, ways, way)
  {
    BeforeOnce(ways[nid], way);
    forall w | way <= w
      ensures Comes(g, starts, ways, w) ==> Taken(g, ways, w)
    {
      if way != w {
        assert w[..|way|] == way;
        assert Pursued(g, starts, ways, w) ==> Kept(g, ways, way);
      }
    }
  }

  /** The search has gone on by the first `i` connections of the widget `nid` at the end of `way`. */
  ghost predicate GoneOn(g: Graph, starts: set<nat>, was: map<nat, seq<nat>>, ways: map<nat, seq<nat>>, way: seq<nat>,
                         nid: nat, i: nat) {
    && Sound(g, starts, ways) && Added(was, ways, way)
    && Pursued(g, starts, ways, way) && Ends(g, way) == nid && Kept(g, ways, way)
    && (forall n <- ways :: Before(ways[n], way + [i]))
    && (forall w :: way < w && w[|way|] < i && Comes(g, starts, ways, w) ==> Taken(g, ways, w))
  }

  lemma PursuedStill(g: Graph, starts: set<nat>, ways: map<nat, seq<nat>>, more: map<nat, seq<nat>>, way: seq<nat>)
    requires Pursued(g, starts, ways, way) && forall n <- ways :: n in more && more[n] == ways[n]
    ensures Pursued(g, starts, more, way)
  {
    forall i | 0 < i < |way|
      ensures Kept(g, more, way[..i])
    {
      assert Kept(g, ways, way[..i]);
    }
  }

  lemma SoundStill(g: Graph, starts: set<nat>, ways: map<nat, seq<nat>>, way: seq<nat>, nid: nat)
    requires Sound(g, starts, ways) && Comes(g, starts, ways, way) && Ends(g, way) == nid && nid !in ways
    ensures Sound(g, starts, ways[nid := way])
  {
    var more := ways[nid := way];
    forall n <- more
      ensures Several(g, n) && Comes(g, starts, more, more[n]) && Ends(g, more[n]) == n
    {
      PursuedStill(g, starts, ways, more, more[n]);
    }
  }

  /** The way leads to a widget that is new. */
  lemma GoesOn(g: Graph, starts: set<nat>, ways: map<nat, seq<nat>>, way: seq<nat>, nid: nat)
    requires AboutToTry(g, starts, ways, way, nid) && Open(g, nid) && |way| <= MAX_DEPTH + 1 && nid !in ways
    ensures GoneOn(g, starts, ways, if Several(g, nid) then ways[nid := way] else ways, way, nid, 0)
  {
    var more := if Several(g, nid) then ways[nid := way] else ways;
    PursuedStill(g, starts, ways, more, way);
    if Several(g, nid) {
      SoundStill(g, starts, ways, way, nid);
    }
    BeforeLonger(way, way + [0]);
    forall n <- more
      ensures Before(more[n], way + [0])
    {
      if n in ways {
        BeforeAll(ways[n], way, way + [0]);
      }
    }
  }

  /** The next connection is tried. */
  lemma TryNext(g: Graph, starts: set<nat>, was: map<nat, seq<nat>>, ways: map<nat, seq<nat>>, way: seq<nat>, nid: nat,
                i: nat)
    requires GoneOn(g, starts, was, ways, way, nid, i) && Open(g, nid) && i < |g.At(nid).conns|
    ensures AboutToTry(g, starts, ways, way + [i], g.At(nid).conns[i])
  {
    var w := way + [i];
    assert w[..|w| - 1] == way;
    forall k | 0 < k < |w|
      ensures Kept(g, ways, w[..k])
    {
      if k < |way| {
        assert w[..k] == way[..k];
      }
    }
  }

  /** A way that comes somewhere by an earlier connection did so before. */
  lemma CameBefore(g: Graph, starts: set<nat>, ways: map<nat, seq<nat>>, more: map<nat, seq<nat>>, way: seq<nat>,
                   i: nat, w: seq<nat>)
    requires Pursued(g, starts, ways, way) && Kept(g, ways, way) && Added(ways, more, way + [i])
    requires way < w && w[|way|] < i && Comes(g, starts, more, w)
    ensures Comes(g, starts, ways, w)
  {
    hide Ends, Several;
    forall k | 0 < k < |w|
      ensures Kept(g, ways, w[..k])
    {
      assert Kept(g, more, w[..k]);
      if k <= |way| {
        assert w[..k] == way[..k];
        assert way[..|way|] == way;
      } else {
        assert w[..k][|way|] != (way + [i])[|way|];
      }
    }
  }

  lemma StillBefore(was: map<nat, seq<nat>>, ways: map<nat, seq<nat>>, way: seq<nat>, i: nat)
    requires Added(was, ways, way + [i]) && forall n <- was :: Before(was[n], way + [i])
    ensures forall n <- ways :: Before(ways[n], way + [i + 1])
  {
    hide Before;
    BeforeNext(way, i, i + 1, way + [i], way + [i + 1]);
    forall n <- ways
      ensures Before(ways[n], way + [i + 1])
    {
      if n in was {
        BeforeTransitive(was[n], way + [i], way + [i + 1]);
      } else {
        BeforeNext(way, i, i + 1, ways[n], way + [i + 1]);
      }
    }
  }

  lemma TriedUpTo(g: Graph, starts: set<nat>, ways: map<nat, seq<nat>>, more: map<nat, seq<nat>>, way: seq<nat>, i: nat)
    requires Pursued(g, starts, ways, way) && Kept(g, ways, way) && Tried(g, starts, ways, more, way + [i])
    requires forall w :: way < w && w[|way|] < i && Comes(g, starts, ways, w) ==> Taken(g, ways, w)
    ensures forall w :: way < w && w[|way|] < i + 1 && Comes(g, starts, more, w) ==> Taken(g, more, w)
  {
    hide Before, Ends, Pursued, Comes, Sound, Kept;
    forall w | way < w && w[|way|] < i + 1 && Comes(g, starts, more, w)
      ensures Taken(g, more, w)
    {
      if w[|way|] < i {
        CameBefore(g, starts, ways, more, way, i, w);
      } else {
        assert way + [i] <= w;
      }
    }
  }

  lemma TriedNext(g: Graph, starts: set<nat>, was: map<nat, seq<nat>>, ways: map<nat, seq<nat>>,
                  more: map<nat, seq<nat>>, way: seq<nat>, nid: nat, i: nat)
    requires GoneOn(g, starts, was, ways, way, nid, i) && Tried(g, starts, ways, more, way + [i])
    ensures GoneOn(g, starts, was, more, way, nid, i + 1)
  {
    PursuedStill(g, starts, ways, more, way);
    StillBefore(ways, more, way, i);
    TriedUpTo(g, starts, ways, more, way, i);
    hide Before, Ends, Pursued, Comes, Sound, Taken;
  }

  lemma TriedWhole(g: Graph, starts: set<nat>, was: map<nat, seq<nat>>, ways: map<nat, seq<nat>>, way: seq<nat>,
                   nid: nat)
    requires Open(g, nid) && GoneOn(g, starts, was, ways, way, nid, |g.At(nid).conns|)
    ensures Tried(g, starts, was, ways, way)
  {
    forall w | way <= w && Comes(g, starts, ways, w)
      ensures Taken(g, ways, w)
    {
      if w == way {
        NeverBefore(way);
      } else {
        EndsBefore(g, w, |way|);
        assert w[..|way|] == way;
      }
    }
  }

  // ---------------------------------------------------------------------------
  // The searches from all starts
  // ---------------------------------------------------------------------------

  /** All starts below `p` have been searched from. */
  ghost predicate Started(g: Graph, starts: set<nat>, ways: map<nat, seq<nat>>, p: nat) {
    && Sound(g, starts, ways)
    && (forall n <- ways :: ways[n][0] < p)
    && (forall w :: Comes(g, starts, ways, w) && w[0] < p ==> Taken(g, ways, w))
  }

  lemma NoneStarted(g: Graph, starts: set<nat>, p: nat)
    requires forall n <- starts :: p <= n
    ensures Started(g, starts, map[], p)
  {
  }

  lemma StartNext(g: Graph, starts: set<nat>, ways: map<nat, seq<nat>>, p: nat)
    requires Started(g, starts, ways, p) && p in starts && Open(g, p)
    ensures AboutToTry(g, starts, ways, [p], p)
  {
  }

  lemma SkipNext(g: Graph, starts: set<nat>, ways: map<nat, seq<nat>>, p: nat)
    requires Started(g, starts, ways, p) && p !in starts
    ensures Started(g, starts, ways, p + 1)
  {
  }

  lemma StartedNext(g: Graph, starts: set<nat>, ways: map<nat, seq<nat>>, more: map<nat, seq<nat>>, p: nat)
    requires Started(g, starts, ways, p) && Tried(g, starts, ways, more, [p])
    ensures Started(g, starts, more, p + 1)
  {
    hide Ends, Before, Several;
    forall w | Comes(g, starts, more, w) && w[0] < p + 1
      ensures Taken(g, more, w)
    {
      if w[0] < p {
        StartedBefore(g, starts, ways, more, p, w);
      }
    }
  }

  lemma StartedBefore(g: Graph, starts: set<nat>, ways: map<nat, seq<nat>>, more: map<nat, seq<nat>>, p: nat,
                      w: seq<nat>)
    requires Added(ways, more, [p]) && Comes(g, starts, more, w) && w[0] < p
    ensures Comes(g, starts, ways, w)
  {
    hide Ends, Several;
    forall k | 0 < k < |w|
      ensures Kept(g, ways, w[..k])
    {
      assert Kept(g, more, w[..k]);
      assert w[..k][0] != [p][0];
    }
  }

  lemma AllStarted(g: Graph, starts: set<nat>, ways: map<nat, seq<nat>>, p: nat)
    requires Started(g, starts, ways, p) && forall n <- starts :: n < p
    ensures FirstWays(g, starts, ways)
  {
  }

  // ---------------------------------------------------------------------------
  // What that determines
  // ---------------------------------------------------------------------------

  ghost predicate Differ(a: map<nat, seq<nat>>, b: map<nat, seq<nat>>, n: nat) {
    n in a && (n in b ==> a[n] != b[n])
  }

  lemma FirstOf(ways: set<seq<nat>>) returns (first: seq<nat>)
    requires ways != {}
    ensures first in ways && forall w <- ways :: !Before(w, first)
  {
    first :| first in ways;
    NeverBefore(first);
    if ways != {first} {
      var rest := FirstOf(ways - {first});
      BeforeTotal(first, rest);
      if Before(rest, first) {
        BeforeOnce(rest, first);
        forall w <- ways
          ensures !Before(w, rest)
        {
        }
        first := rest;
      } else {
        forall w <- ways
          ensures !Before(w, first)
        {
          if w != first && Before(w, first) {
            BeforeTransitive(w, first, rest);
          }
        }
      }
    }
  }

  /** Where the two differ, the first way of one leads to an earlier one of the other. */
  lemma DifferBefore(g: Graph, starts: set<nat>, a: map<nat, seq<nat>>, b: map<nat, seq<nat>>, n: nat)
    requires FirstWays(g, starts, a) && FirstWays(g, starts, b) && Differ(a, b, n)
    requires forall m | Differ(a, b, m) :: !Before(a[m], a[n])
    ensures n in b && Before(b[n], a[n])
  {
    var way := a[n];
    forall k | 0 < k < |way|
      ensures Kept(g, b, way[..k])
    {
      assert Kept(g, a, way[..k]);
      var m := Ends(g, way[..k]);
      if Several(g, m) && Differ(a, b, m) {
        BeforeLonger(way[..k], way);
      }
    }
    assert Comes(g, starts, b, way);
    assert Taken(g, b, way);
    BeforeTotal(way, b[n]);
  }

  /** There is only one such choice of ways. */
  lemma FirstWaysUnique(g: Graph, starts: set<nat>, a: map<nat, seq<nat>>, b: map<nat, seq<nat>>)
    requires FirstWays(g, starts, a) && FirstWays(g, starts, b)
    ensures a == b
  {
    var all := (set n | n in a && Differ(a, b, n) :: a[n]) + (set n | n in b && Differ(b, a, n) :: b[n]);
    assert forall n <- a :: Differ(a, b, n) ==> a[n] in all;
    assert forall n <- b :: Differ(b, a, n) ==> b[n] in all;
    if all != {} {
      hide FirstWays, Before;
      var first := FirstOf(all);
      if n :| n in a && Differ(a, b, n) && a[n] == first {
        DifferBefore(g, starts, a, b, n);
      } else {
        var n :| n in b && Differ(b, a, n) && b[n] == first;
        DifferBefore(g, starts, b, a, n);
      }
    } else {
      assert forall n :: !Differ(a, b, n) && !Differ(b, a, n);
    }
  }

  // ---------------------------------------------------------------------------
  // Where no way is lost
  // ---------------------------------------------------------------------------

  /** The way comes to no widget twice. */
  ghost predicate Simple(g: Graph, way: seq<nat>) {
    Ends(g, way) != -1 && forall i, j :: 0 < i < j <= |way| ==> Ends(g, way[..i]) != Ends(g, way[..j])
  }

  /** No such way from a start takes more than 10 connections. */
  ghost predicate Shallow(g: Graph, starts: set<nat>) {
    forall way :: way != [] && way[0] in starts && Simple(g, way) ==> |way| <= MAX_DEPTH + 1
  }

  lemma {:induction false} EndsSame(g: Graph, a: seq<nat>, b: seq<nat>, rest: seq<nat>)
    requires a != [] && b != [] && Ends(g, a) == Ends(g, b) != -1
    ensures Ends(g, a + rest) == Ends(g, b + rest)
    decreases |rest|
  {
    if rest == [] {
      assert a + rest == a && b + rest == b;
    } else {
      var most := rest[..|rest| - 1];
      EndsSame(g, a, b, most);
      assert (a + rest)[..|a + rest| - 1] == a + most && (b + rest)[..|b + rest| - 1] == b + most;
    }
  }

  /** A way that is followed to a widget that is new comes to no widget twice: from one with a
      single connection it would go round for good. */
  lemma {:induction false} NeverTwice(g: Graph, starts: set<nat>, ways: map<nat, seq<nat>>, way: seq<nat>, i: nat,
                                      j: nat)
    requires Pursued(g, starts, ways, way) && Ends(g, way) != -1 && Several(g, Ends(g, way)) && Ends(g, way) !in ways
    requires 0 < i < j <= |way|
    ensures Ends(g, way[..i]) != Ends(g, way[..j])
    decreases |way| - j
  {
    assert way[..|way|] == way;
    assert Kept(g, ways, way[..i]);
    if j < |way| {
      assert Kept(g, ways, way[..j]);
      EndsBefore(g, way, i);
      EndsBefore(g, way, j);
      assert |way[..i]| < |way[..j]|;
      NeverTwice(g, starts, ways, way, i + 1, j + 1);
    }
  }

  ghost predicate Single(g: Graph, way: seq<nat>) { Ends(g, way) != -1 ==> !Several(g, Ends(g, way)) }

  /** The last widget with several connections that the way comes to before its end. */
  lemma LastSeveral(g: Graph, way: seq<nat>) returns (k: nat)
    requires way != []
    ensures k < |way| && (0 < k ==> !Single(g, way[..k]))
    ensures forall i :: k < i < |way| ==> Single(g, way[..i])
  {
    k := |way| - 1;
    while 0 < k && Single(g, way[..k])
      invariant k < |way| && forall i :: k < i < |way| ==> Single(g, way[..i])
    {
      k := k - 1;
    }
  }

  /** A way as the search follows it to the widget that `way` leads to. */
  lemma Rejoins(g: Graph, starts: set<nat>, ways: map<nat, seq<nat>>, way: seq<nat>, k: nat) returns (w: seq<nat>)
    requires Sound(g, starts, ways) && Ends(g, way) != -1 && way[0] in starts && k < |way|
    requires 0 < k ==> Ends(g, way[..k]) in ways
    requires forall i :: k < i < |way| ==> Single(g, way[..i])
    ensures Pursued(g, starts, ways, w) && Ends(g, w) == Ends(g, way)
  {
    if k == 0 {
      w := way;
      forall i | 0 < i < |w|
        ensures Kept(g, ways, w[..i])
      {
        EndsBefore(g, way, i);
      }
    } else {
      var u := Ends(g, way[..k]);
      EndsBefore(g, way, k);
      w := ways[u] + way[k..];
      assert way[..k] + way[k..] == way;
      EndsSame(g, ways[u], way[..k], way[k..]);
      forall i | 0 < i < |w|
        ensures Kept(g, ways, w[..i])
      {
        RejoinsKept(g, starts, ways, way, k, i);
      }
    }
  }

  lemma RejoinsKept(g: Graph, starts: set<nat>, ways: map<nat, seq<nat>>, way: seq<nat>, k: nat, i: nat)
    requires Sound(g, starts, ways) && Ends(g, way) != -1 && 0 < k < |way| && Ends(g, way[..k]) in ways
    requires forall i :: k < i < |way| ==> Single(g, way[..i])
    requires 0 < i < |ways[Ends(g, way[..k])] + way[k..]|
    ensures Kept(g, ways, (ways[Ends(g, way[..k])] + way[k..])[..i])
  {
    var to := ways[Ends(g, way[..k])];
    var w := to + way[k..];
    if i < |to| {
      assert w[..i] == to[..i];
    } else if i == |to| {
      assert w[..i] == to;
    } else {
      var m := k + (i - |to|);
      EndsBefore(g, way, k);
      EndsBefore(g, way, m);
      assert w[..i] == to + way[k..m] && way[..m] == way[..k] + way[k..m];
      EndsSame(g, to, way[..k], way[k..m]);
    }
  }

  /** Then the search comes to every widget with several connections that any way leads to. */
  lemma {:induction false} ShallowComes(g: Graph, starts: set<nat>, ways: map<nat, seq<nat>>, way: seq<nat>)
    requires FirstWays(g, starts, ways) && Shallow(g, starts)
    requires way != [] && way[0] in starts && Ends(g, way) != -1 && Several(g, Ends(g, way))
    ensures Ends(g, way) in ways
    decreases |way|
  {
    hide Ends, Pursued, Shallow, FirstWays;
    var k := LastSeveral(g, way);
    if 0 < k {
      assert way[..k][0] == way[0];
      ShallowComes(g, starts, ways, way[..k]);
    }
    assert Sound(g, starts, ways) by {
      FirstAreSound(g, starts, ways);
    }
    hide Sound;
    var w := Rejoins(g, starts, ways, way, k);
    PursuedIsTaken(g, starts, ways, w);
  }

  lemma FirstAreSound(g: Graph, starts: set<nat>, ways: map<nat, seq<nat>>)
    requires FirstWays(g, starts, ways)
    ensures Sound(g, starts, ways)
  {
  }

  lemma PursuedIsTaken(g: Graph, starts: set<nat>, ways: map<nat, seq<nat>>, way: seq<nat>)
    requires FirstWays(g, starts, ways) && Shallow(g, starts)
    requires Pursued(g, starts, ways, way) && Ends(g, way) != -1 && Several(g, Ends(g, way))
    ensures Ends(g, way) in ways
  {
    assert Comes(g, starts, ways, way) ==> Taken(g, ways, way);
    if Ends(g, way) !in ways {
      PursuedIsSimple(g, starts, ways, way);
    }
  }

  lemma PursuedIsSimple(g: Graph, starts: set<nat>, ways: map<nat, seq<nat>>, way: seq<nat>)
    requires Pursued(g, starts, ways, way) && Ends(g, way) != -1 && Several(g, Ends(g, way)) && Ends(g, way) !in ways
    ensures Simple(g, way)
  {
    forall i, j | 0 < i < j <= |way|
      ensures Ends(g, way[..i]) != Ends(g, way[..j])
    {
      NeverTwice(g, starts, ways, way, i, j);
    }
  }

  /** The widgets that a way comes to. */
  function Visited(g: Graph, way: seq<nat>, k: nat): set<int>
    requires k <= |way|
  {
    set i | 0 < i <= k :: Ends(g, way[..i])
  }

  lemma {:induction false} VisitedCount(g: Graph, way: seq<nat>, k: nat)
    requires Simple(g, way) && k <= |way|
    ensures |Visited(g, way, k)| == k
  {
    if k == 0 {
      assert Visited(g, way, 0) == {};
    } else {
      VisitedCount(g, way, k - 1);
      assert Visited(g, way, k) == Visited(g, way, k - 1) + {Ends(g, way[..k])};
      assert Ends(g, way[..k]) !in Visited(g, way, k - 1);
    }
  }

  lemma {:induction false} Count(lo: int, n: nat) returns (all: set<int>)
    ensures |all| == n && forall x :: x in all <==> lo <= x < lo + n
  {
    if n == 0 {
      all := {};
    } else {
      var most := Count(lo, n - 1);
      all := most + {lo + n - 1};
    }
  }

  lemma Fewer(a: set<int>, b: set<int>)
    requires a <= b
    ensures |a| <= |b|
  {
    assert a + (b - a) == b;
    assert |a * (b - a)| == 0;
  }

  /** A graph of at most 11 nodes is shallow. */
  lemma SmallIsShallow(g: Graph, starts: set<nat>)
    requires |g.nodes| <= MAX_DEPTH + 1
    ensures Shallow(g, starts)
  {
    forall way | way != [] && way[0] in starts && Simple(g, way)
      ensures |way| <= MAX_DEPTH + 1
    {
      VisitedCount(g, way, |way|);
      var all := Count(g.start, |g.nodes|);
      forall x <- Visited(g, way, |way|)
        ensures x in all
      {
        var i :| 0 < i <= |way| && x == Ends(g, way[..i]);
        EndsBefore(g, way, i);
      }
      Fewer(Visited(g, way, |way|), all);
    }
  }

  /** A way of at most `k` connections leads from a start to `n`. */
  ghost predicate LedTo(g: Graph, starts: set<nat>, n: nat, k: nat) {
    exists way :: way != [] && way[0] in starts && |way| <= k + 1 && Ends(g, way) == n
  }

  ghost predicate Led(g: Graph, starts: set<nat>, n: nat) {
    exists way :: way != [] && way[0] in starts && Ends(g, way) == n
  }

  /** A way leads to whatever the search comes to; and in a shallow graph it comes to all that a
      way leads to. */
  lemma ComesToLed(g: Graph, starts: set<nat>, ways: map<nat, seq<nat>>, n: nat)
    requires FirstWays(g, starts, ways)
    ensures n in ways ==> Several(g, n) && LedTo(g, starts, n, MAX_DEPTH)
    ensures Shallow(g, starts) ==> (n in ways <==> Several(g, n) && Led(g, starts, n))
  {
    FirstAreSound(g, starts, ways);
    hide FirstWays, Shallow, Ends;
    if n in ways {
      assert Comes(g, starts, ways, ways[n]);
      assert ways[n] != [] && ways[n][0] in starts && |ways[n]| <= MAX_DEPTH + 1 && Ends(g, ways[n]) == n;
      assert LedTo(g, starts, n, MAX_DEPTH);
    }
    if Shallow(g, starts) && Several(g, n) && Led(g, starts, n) {
      var way :| way != [] && way[0] in starts && Ends(g, way) == n;
      ShallowComes(g, starts, ways, way);
    }
  }
}
