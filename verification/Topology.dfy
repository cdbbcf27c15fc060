/** BuildTopology: the depth-bounded searches that mark playback and recording paths and
    select one connection per widget. */
module Topology {
  import opened TopologyPaths
  import opened TopologySelectors

  /** A widget with the state the searches keep in it; `currConn` is iCurrConnIdx. */
  datatype Widget = Widget(caps: Caps, dac: bool, adc: bool, recSel: bool, currConn: int)

  function Mark(kind: PathKind, w: Widget): bool { if kind == Dac then w.dac else w.adc }

  function WithMark(kind: PathKind, w: Widget): Widget {
    if kind == Dac then w.(dac := true) else w.(adc := true)
  }

  ghost predicate Holds(g: Graph, ws: seq<Widget>) {
    |ws| == |g.nodes| && forall i :: 0 <= i < |ws| ==> ws[i].caps == g.nodes[i]
  }

  /** What a search of one kind leaves alone: all but its own mark, and a connection once
      it is selected. */
  ghost predicate Leaves(kind: PathKind, before: seq<Widget>, after: seq<Widget>) {
    && |after| == |before|
    && forall i :: 0 <= i < |after| ==>
         && after[i].caps == before[i].caps && after[i].recSel == before[i].recSel
         && (if kind == Dac then after[i].adc == before[i].adc else after[i].dac == before[i].dac)
         && (before[i].currConn != -1 ==> after[i].currConn == before[i].currConn)
  }

  /** The marks after a search from `nid` with `k` connections to go. */
  ghost predicate MarksPaths(g: Graph, kind: PathKind, before: seq<Widget>, after: seq<Widget>, nid: nat, k: nat) {
    |after| == |before| &&
    forall i: nat | i < |after| ::
      Mark(kind, after[i]) <==> Mark(kind, before[i]) || OnPath(g, kind, nid, k, g.start + i)
  }

  /** The same for searches from each of `conns`, the widget at `self` being marked too if
      one of them succeeds. */
  ghost predicate MarksAll(g: Graph, kind: PathKind, before: seq<Widget>, after: seq<Widget>,
                           conns: seq<nat>, k: nat, self: nat) {
    |after| == |before| &&
    forall i: nat | i < |after| ::
      Mark(kind, after[i]) <==>
        Mark(kind, before[i]) || OnAnyPath(g, kind, conns, k, g.start + i)
        || (i == self && ReachAny(g, kind, conns, k))
  }

  lemma AnyGrows(g: Graph, kind: PathKind, conns: seq<nat>, i: nat, k: nat)
    requires i < |conns|
    ensures ReachAny(g, kind, conns[..i + 1], k) <==> ReachAny(g, kind, conns[..i], k) || Reach(g, kind, conns[i], k)
  {
    if ReachAny(g, kind, conns[..i], k) {
      var j :| 0 <= j < i && Reach(g, kind, conns[..i][j], k);
      assert Reach(g, kind, conns[..i + 1][j], k);
    }
    if Reach(g, kind, conns[i], k) {
      assert Reach(g, kind, conns[..i + 1][i], k);
    }
    if ReachAny(g, kind, conns[..i + 1], k) {
      var j :| 0 <= j < i + 1 && Reach(g, kind, conns[..i + 1][j], k);
      assert j < i ==> Reach(g, kind, conns[..i][j], k);
    }
  }

  lemma AnyPathGrows(g: Graph, kind: PathKind, conns: seq<nat>, i: nat, k: nat, w: nat)
    requires i < |conns|
    ensures OnAnyPath(g, kind, conns[..i + 1], k, w)
            <==> OnAnyPath(g, kind, conns[..i], k, w) || OnPath(g, kind, conns[i], k, w)
  {
    if OnAnyPath(g, kind, conns[..i], k, w) {
      var j :| 0 <= j < i && OnPath(g, kind, conns[..i][j], k, w);
      assert OnPath(g, kind, conns[..i + 1][j], k, w);
    }
    if OnPath(g, kind, conns[i], k, w) {
      assert OnPath(g, kind, conns[..i + 1][i], k, w);
    }
    if OnAnyPath(g, kind, conns[..i + 1], k, w) {
      var j :| 0 <= j < i + 1 && OnPath(g, kind, conns[..i + 1][j], k, w);
      assert j < i ==> OnPath(g, kind, conns[..i][j], k, w);
    }
  }

  /** One more connection tried: it failed, and nothing was marked. */
  lemma MarksAfterFailure(g: Graph, kind: PathKind, b: seq<Widget>, m: seq<Widget>, a: seq<Widget>,
                          conns: seq<nat>, i: nat, k: nat, self: nat)
    requires i < |conns| && MarksAll(g, kind, b, m, conns[..i], k, self)
    requires MarksPaths(g, kind, m, a, conns[i], k) && !Reach(g, kind, conns[i], k)
    ensures MarksAll(g, kind, b, a, conns[..i + 1], k, self)
  {
    AnyGrows(g, kind, conns, i, k);
    forall x: nat | x < |a|
      ensures Mark(kind, a[x]) <==>
        Mark(kind, b[x]) || OnAnyPath(g, kind, conns[..i + 1], k, g.start + x)
        || (x == self && ReachAny(g, kind, conns[..i + 1], k))
    {
      AnyPathGrows(g, kind, conns, i, k, g.start + x);
    }
  }

  /** One more connection tried with success. */
  lemma MarksAfterSuccess(g: Graph, kind: PathKind, b: seq<Widget>, m: seq<Widget>, a: seq<Widget>, z: seq<Widget>,
                          conns: seq<nat>, i: nat, k: nat, self: nat)
    requires i < |conns| && MarksAll(g, kind, b, m, conns[..i], k, self)
    requires MarksPaths(g, kind, m, a, conns[i], k) && Reach(g, kind, conns[i], k)
    requires |z| == |a| && self < |z| && Mark(kind, z[self])
    requires forall x :: 0 <= x < |z| && x != self ==> z[x] == a[x]
    ensures MarksAll(g, kind, b, z, conns[..i + 1], k, self)
  {
    AnyGrows(g, kind, conns, i, k);
    forall x: nat | x < |z|
      ensures Mark(kind, z[x]) <==>
        Mark(kind, b[x]) || OnAnyPath(g, kind, conns[..i + 1], k, g.start + x)
        || (x == self && ReachAny(g, kind, conns[..i + 1], k))
    {
      AnyPathGrows(g, kind, conns, i, k, g.start + x);
    }
  }

  /** All connections of an enabled inner widget tried: that is the search from it. */
  lemma MarksOfInner(g: Graph, kind: PathKind, b: seq<Widget>, a: seq<Widget>, nid: nat, k: nat)
    requires g.Has(nid) && g.At(nid).enabled && Inner(kind, g.At(nid)) && !Leaf(kind, g.At(nid)) && 0 < k
    requires MarksAll(g, kind, b, a, g.At(nid).conns, k - 1, nid - g.start)
    ensures MarksPaths(g, kind, b, a, nid, k)
    ensures Reach(g, kind, nid, k) <==> ReachAny(g, kind, g.At(nid).conns, k - 1)
  {
    var conns := g.At(nid).conns;
    forall x: nat | x < |a|
      ensures Mark(kind, a[x]) <==> Mark(kind, b[x]) || OnPath(g, kind, nid, k, g.start + x)
    {
      OnSomePathReaches(g, kind, conns, k - 1, g.start + x);
    }
  }

  lemma OnSomePathReaches(g: Graph, kind: PathKind, conns: seq<nat>, k: nat, w: nat)
    ensures OnAnyPath(g, kind, conns, k, w) ==> ReachAny(g, kind, conns, k)
  {
    if OnAnyPath(g, kind, conns, k, w) {
      var i :| 0 <= i < |conns| && OnPath(g, kind, conns[i], k, w);
      assert Reach(g, kind, conns[i], k);
    }
  }

  // ---------------------------------------------------------------------------
  // Selected connections
  // ---------------------------------------------------------------------------

  /** The widgets whose connection the pass of kind `kind` has selected, in the order it did
      so.  Each one's selected connection leads to a leaf, to one of `base`, whose connections
      an earlier pass selected, or to a widget before it. */
  ghost predicate SelectedAt(g: Graph, kind: PathKind, ws: seq<Widget>, base: seq<nat>, order: seq<nat>, j: nat)
    requires Holds(g, ws) && j < |order|
  {
    var w := order[j];
    && g.Has(w) && Mark(kind, ws[w - g.start]) && Picks(kind, g.At(w))
    && 0 <= ws[w - g.start].currConn < |g.At(w).conns|
    && Settled(g, kind, base, order[..j], g.At(w).conns[ws[w - g.start].currConn])
    && Chooses(g, kind, w, ws[w - g.start].currConn)
  }

  /** The connection chosen for `nid` is the first that leads on: for a pin, the first that plays;
      for another widget, the first that did with the connections left when a search found it. */
  ghost predicate Chooses(g: Graph, kind: PathKind, nid: nat, c: int)
    requires g.Has(nid) && 0 <= c < |g.At(nid).conns|
  {
    if Inner(kind, g.At(nid)) then exists k: nat :: k < MAX_DEPTH && FirstWithin(g, kind, g.At(nid).conns, c, k)
    else FirstToFeed(g, nid - g.start, c)
  }

  ghost predicate FirstToFeed(g: Graph, p: nat, c: nat) {
    Feeds(g, p, c) && forall j: nat | j < c :: !Feeds(g, p, j)
  }

  ghost predicate FirstWithin(g: Graph, kind: PathKind, conns: seq<nat>, c: int, k: nat)
    requires 0 <= c < |conns|
  {
    Reach(g, kind, conns[c], k) && forall j :: 0 <= j < c ==> !Reach(g, kind, conns[j], k)
  }

  /** A pass of kind `kind` may select a connection of such a widget. */
  predicate Picks(kind: PathKind, c: Caps) { Inner(kind, c) || (kind == Dac && OutputPin(c)) }

  /** From `c` selected connections lead on, or need not. */
  ghost predicate Settled(g: Graph, kind: PathKind, base: seq<nat>, order: seq<nat>, c: nat) {
    g.Has(c) && g.At(c).enabled && (Leaf(kind, g.At(c)) || c in base || c in order)
  }

  lemma SettledIs(g: Graph, kind: PathKind, base: seq<nat>, order: seq<nat>, c: nat)
    requires g.Has(c) && g.At(c).enabled
    ensures c in base || c in order ==> Settled(g, kind, base, order, c)
  {
  }

  ghost predicate Selected(g: Graph, kind: PathKind, ws: seq<Widget>, base: seq<nat>, order: seq<nat>)
    requires Holds(g, ws)
  {
    forall j: nat | j < |order| :: SelectedAt(g, kind, ws, base, order, j)
  }

  /** Every widget with the mark of `kind` that is no leaf has its connection selected. */
  ghost predicate Complete(g: Graph, kind: PathKind, ws: seq<Widget>, base: seq<nat>, order: seq<nat>)
    requires Holds(g, ws)
  {
    forall i: nat | i < |ws| ::
      Mark(kind, ws[i]) && !Leaf(kind, ws[i].caps) ==> g.start + i in base || g.start + i in order
  }

  /** No other widget has a connection selected. */
  ghost predicate Only(g: Graph, ws: seq<Widget>, base: seq<nat>, order: seq<nat>)
    requires Holds(g, ws)
  {
    forall i: nat | i < |ws| :: ws[i].currConn != -1 ==> g.start + i in base || g.start + i in order
  }

  /** Following selected connections from `nid` reaches a leaf, or one of `base`, within `n`
      steps. */
  ghost predicate Follows(g: Graph, kind: PathKind, ws: seq<Widget>, base: seq<nat>, nid: nat, n: nat)
    requires Holds(g, ws)
    decreases n
  {
    && g.Has(nid) && g.At(nid).enabled
    && (|| Leaf(kind, g.At(nid)) || nid in base
        || (&& 0 < n && 0 <= ws[nid - g.start].currConn < |g.At(nid).conns|
            && Follows(g, kind, ws, base, g.At(nid).conns[ws[nid - g.start].currConn], n - 1)))
  }

  lemma {:induction false} SelectedFollows(g: Graph, kind: PathKind, ws: seq<Widget>, base: seq<nat>,
                                           order: seq<nat>, j: nat)
    requires Holds(g, ws) && Selected(g, kind, ws, base, order) && j < |order|
    requires g.Has(order[j]) && g.At(order[j]).enabled
    ensures Follows(g, kind, ws, base, order[j], j + 1)
    decreases j
  {
    assert SelectedAt(g, kind, ws, base, order, j);
    var w := order[j];
    var c := g.At(w).conns[ws[w - g.start].currConn];
    if !Leaf(kind, g.At(c)) && c !in base {
      var i :| 0 <= i < j && order[i] == c;
      SelectedFollows(g, kind, ws, base, order, i);
      FollowsMonotone(g, kind, ws, base, c, i + 1, j);
    }
  }

  lemma {:induction false} FollowsMonotone(g: Graph, kind: PathKind, ws: seq<Widget>, base: seq<nat>, nid: nat,
                                           m: nat, n: nat)
    requires Holds(g, ws) && Follows(g, kind, ws, base, nid, m) && m <= n
    ensures Follows(g, kind, ws, base, nid, n)
    decreases m
  {
    if !Leaf(kind, g.At(nid)) && nid !in base {
      FollowsMonotone(g, kind, ws, base, g.At(nid).conns[ws[nid - g.start].currConn], m - 1, n - 1);
    }
  }

  /** From every enabled widget with the mark of `kind`, following the selected connections
      reaches an enabled leaf or a widget of `base`, cycles in the graph or not. */
  lemma {:induction false} MarkedFollows(g: Graph, kind: PathKind, ws: seq<Widget>, base: seq<nat>,
                                         order: seq<nat>, i: nat)
    requires Holds(g, ws) && Selected(g, kind, ws, base, order) && Complete(g, kind, ws, base, order)
    requires i < |ws| && Mark(kind, ws[i]) && ws[i].caps.enabled
    ensures Follows(g, kind, ws, base, g.start + i, |order|)
  {
    if !Leaf(kind, ws[i].caps) && g.start + i !in base {
      var j :| 0 <= j < |order| && order[j] == g.start + i;
      SelectedFollows(g, kind, ws, base, order, j);
      FollowsMonotone(g, kind, ws, base, g.start + i, j + 1, |order|);
    }
  }

  /** Selections survive anything that keeps marks and selected connections. */
  lemma SelectedSurvives(g: Graph, kind: PathKind, before: seq<Widget>, after: seq<Widget>, base: seq<nat>,
                         order: seq<nat>)
    requires Holds(g, before) && Holds(g, after) && Selected(g, kind, before, base, order)
    requires forall i :: 0 <= i < |after| ==>
               && (Mark(kind, before[i]) ==> Mark(kind, after[i]))
               && (before[i].currConn != -1 ==> after[i].currConn == before[i].currConn)
    ensures Selected(g, kind, after, base, order)
  {
    hide Settled, Chooses;
    forall j: nat | j < |order|
      ensures SelectedAt(g, kind, after, base, order, j)
    {
      assert SelectedAt(g, kind, before, base, order, j);
    }
  }

  /** What holds of the selections at any moment of the pass of kind `kind`. */
  ghost predicate Passing(g: Graph, kind: PathKind, ws: seq<Widget>, base: seq<nat>, order: seq<nat>)
    requires Holds(g, ws)
  {
    Selected(g, kind, ws, base, order) && Complete(g, kind, ws, base, order) && Only(g, ws, base, order)
  }

  /** Every widget of `order` has the connection selected that it is to choose. */
  ghost predicate AllChose(g: Graph, kind: PathKind, ws: seq<Widget>, order: seq<nat>)
    requires Holds(g, ws)
  {
    forall n: nat | n in order :: ChoseAt(g, kind, ws, n)
  }

  ghost predicate ChoseAt(g: Graph, kind: PathKind, ws: seq<Widget>, n: nat)
    requires Holds(g, ws)
  {
    && g.Has(n) && 0 <= ws[n - g.start].currConn < |g.At(n).conns|
    && Chooses(g, kind, n, ws[n - g.start].currConn)
  }

  lemma SelectedChose(g: Graph, kind: PathKind, ws: seq<Widget>, base: seq<nat>, order: seq<nat>)
    requires Holds(g, ws) && Selected(g, kind, ws, base, order)
    ensures AllChose(g, kind, ws, order)
  {
    hide Chooses, Settled;
    forall n: nat | n in order
      ensures ChoseAt(g, kind, ws, n)
    {
      var j :| 0 <= j < |order| && order[j] == n;
      assert SelectedAt(g, kind, ws, base, order, j);
    }
  }

  /** The list after widget `w` was offered a connection. */
  function Listed(g: Graph, ws: seq<Widget>, order: seq<nat>, w: nat): seq<nat>
    requires w < |ws|
  {
    if ws[w].currConn == -1 then order + [g.start + w] else order
  }

  /** Widget `w` is offered its connection `i`, which leads on. */
  lemma ChosenPasses(g: Graph, kind: PathKind, ws: seq<Widget>, base: seq<nat>, order: seq<nat>, w: nat, i: nat)
    requires Holds(g, ws) && Passing(g, kind, ws, base, order) && w < |ws| && i < |g.nodes[w].conns|
    requires Picks(kind, g.nodes[w]) && Settled(g, kind, base, order, g.nodes[w].conns[i])
    requires ws[w].currConn == -1 ==> Chooses(g, kind, g.start + w, i)
    ensures var now := ws[w := Chosen(kind, ws[w], i)];
            && Holds(g, now) && Passing(g, kind, now, base, Listed(g, ws, order, w))
            && (g.start + w in base || g.start + w in Listed(g, ws, order, w))
  {
    hide Chooses;
    var now, longer := ws[w := Chosen(kind, ws[w], i)], Listed(g, ws, order, w);
    SelectedSurvives(g, kind, ws, now, base, order);
    forall j: nat | j < |longer|
      ensures SelectedAt(g, kind, now, base, longer, j)
    {
      assert longer[..j] == order[..j];
      assert order[..|order|] == order;
      if j < |order| {
        assert SelectedAt(g, kind, now, base, order, j);
      }
    }
    forall n: nat | n in order
      ensures n in longer
    {
    }
    assert ws[w].currConn == -1 ==> longer[|order|] == g.start + w;
  }

  /** A leaf is marked. */
  lemma LeafPasses(g: Graph, kind: PathKind, ws: seq<Widget>, base: seq<nat>, order: seq<nat>, w: nat)
    requires Holds(g, ws) && Passing(g, kind, ws, base, order) && w < |ws| && Leaf(kind, ws[w].caps)
    ensures var now := ws[w := WithMark(kind, ws[w])];
            Holds(g, now) && Passing(g, kind, now, base, order)
  {
    SelectedSurvives(g, kind, ws, ws[w := WithMark(kind, ws[w])], base, order);
  }

  /** The playback pass begins with nothing selected. */
  lemma NothingPassed(g: Graph, ws: seq<Widget>)
    requires Holds(g, ws)
    requires forall i: nat | i < |ws| :: !ws[i].dac && ws[i].currConn == -1
    ensures Passing(g, Dac, ws, [], [])
  {
  }

  /** While the recording pass runs, what the playback pass selected stands. */
  ghost predicate Recording(g: Graph, ws: seq<Widget>, order: seq<nat>, taken: seq<nat>)
    requires Holds(g, ws)
  {
    && Selected(g, Dac, ws, [], order) && Complete(g, Dac, ws, [], order)
    && Passing(g, Adc, ws, order, taken)
  }

  /** The recording pass begins where the playback pass ended. */
  lemma PlaybackPassed(g: Graph, ws: seq<Widget>, order: seq<nat>)
    requires Holds(g, ws) && Passing(g, Dac, ws, [], order)
    requires forall i: nat | i < |ws| :: !ws[i].adc
    ensures Passing(g, Adc, ws, order, [])
  {
  }

  // ---------------------------------------------------------------------------
  // Recording through widgets that playback uses
  // ---------------------------------------------------------------------------

  /** Following selected connections from `nid` comes to a widget of `base` within `n` steps. */
  ghost predicate Meets(g: Graph, kind: PathKind, ws: seq<Widget>, base: seq<nat>, nid: nat, n: nat)
    requires Holds(g, ws)
    decreases n
  {
    && g.Has(nid) && g.At(nid).enabled && !Leaf(kind, g.At(nid))
    && (|| nid in base
        || (&& 0 < n && 0 <= ws[nid - g.start].currConn < |g.At(nid).conns|
            && Meets(g, kind, ws, base, g.At(nid).conns[ws[nid - g.start].currConn], n - 1)))
  }

  lemma {:induction false} FollowsOrMeets(g: Graph, kind: PathKind, ws: seq<Widget>, base: seq<nat>, nid: nat, n: nat)
    requires Holds(g, ws) && Follows(g, kind, ws, base, nid, n)
    ensures Meets(g, kind, ws, base, nid, n) || Follows(g, kind, ws, [], nid, n)
    decreases n
  {
    if !Leaf(kind, g.At(nid)) && nid !in base {
      FollowsOrMeets(g, kind, ws, base, g.At(nid).conns[ws[nid - g.start].currConn], n - 1);
    }
  }

  /** What both passes leave behind. */
  ghost predicate Passed(g: Graph, ws: seq<Widget>, order: seq<nat>, taken: seq<nat>)
    requires Holds(g, ws)
  {
    && Selected(g, Dac, ws, [], order) && Selected(g, Adc, ws, order, taken) && Only(g, ws, order, taken)
  }

  lemma OrderPicks(g: Graph, kind: PathKind, ws: seq<Widget>, base: seq<nat>, order: seq<nat>, c: nat)
    requires Holds(g, ws) && Selected(g, kind, ws, base, order) && g.Has(c) && c in order
    ensures Picks(kind, g.At(c))
  {
    var j :| 0 <= j < |order| && order[j] == c;
    assert SelectedAt(g, kind, ws, base, order, j);
  }

  /** A converter has no connection selected. */
  lemma ConverterSelectsNone(g: Graph, ws: seq<Widget>, order: seq<nat>, taken: seq<nat>, c: nat)
    requires Holds(g, ws) && Passed(g, ws, order, taken) && g.Has(c) && g.At(c).kind == AudioOutput
    ensures ws[c - g.start].currConn == -1
  {
    if ws[c - g.start].currConn != -1 {
      assert g.start + (c - g.start) == c;
      if c in order {
        OrderPicks(g, Dac, ws, [], order, c);
      } else {
        OrderPicks(g, Adc, ws, order, taken, c);
      }
    }
  }

  /** From a widget selected for playback no input pin is reached. */
  lemma {:induction false} PlaybackMissesPins(
      g: Graph, ws: seq<Widget>, order: seq<nat>, taken: seq<nat>, j: nat, m: nat)
    requires Holds(g, ws) && Passed(g, ws, order, taken) && j < |order|
    ensures !Follows(g, Adc, ws, [], order[j], m)
    decreases j
  {
    assert SelectedAt(g, Dac, ws, [], order, j);
    var w := order[j];
    var c := g.At(w).conns[ws[w - g.start].currConn];
    if 0 < m {
      if g.At(c).kind == AudioOutput {
        ConverterSelectsNone(g, ws, order, taken, c);
      } else {
        var i :| 0 <= i < j && order[i] == c;
        PlaybackMissesPins(g, ws, order, taken, i, m - 1);
      }
    }
  }

  lemma {:induction false} MeetingMissesPins(g: Graph, ws: seq<Widget>, order: seq<nat>, taken: seq<nat>, nid: nat,
                                             n: nat, m: nat)
    requires Holds(g, ws) && Passed(g, ws, order, taken) && Meets(g, Adc, ws, order, nid, n)
    ensures !Follows(g, Adc, ws, [], nid, m)
    decreases n
  {
    if nid in order {
      var j :| 0 <= j < |order| && order[j] == nid;
      PlaybackMissesPins(g, ws, order, taken, j, m);
    } else if 0 < m {
      MeetingMissesPins(g, ws, order, taken, g.At(nid).conns[ws[nid - g.start].currConn], n - 1, m - 1);
    }
  }

  /** Following selected connections from widget `i` reaches an input pin within `m` steps. */
  ghost predicate FollowsToPin(g: Graph, ws: seq<Widget>, i: nat, m: nat)
    requires Holds(g, ws)
  {
    Follows(g, Adc, ws, [], g.start + i, m)
  }

  /** A recording widget's selected connections lead to an input pin exactly if they meet no
      widget selected for playback. */
  lemma ReachesPinIff(g: Graph, ws: seq<Widget>, order: seq<nat>, taken: seq<nat>, i: nat, m: nat)
    requires Holds(g, ws) && Passed(g, ws, order, taken) && Complete(g, Adc, ws, order, taken)
    requires i < |ws| && ws[i].adc && ws[i].caps.enabled && |taken| <= m
    ensures FollowsToPin(g, ws, i, m) <==> !Meets(g, Adc, ws, order, g.start + i, |taken|)
  {
    MarkedFollows(g, Adc, ws, order, taken, i);
    FollowsOrMeets(g, Adc, ws, order, g.start + i, |taken|);
    if Meets(g, Adc, ws, order, g.start + i, |taken|) {
      MeetingMissesPins(g, ws, order, taken, g.start + i, |taken|, m);
    } else {
      FollowsMonotone(g, Adc, ws, [], g.start + i, |taken|, m);
    }
  }

  // ---------------------------------------------------------------------------
  // The searches
  // ---------------------------------------------------------------------------

  /** A search of kind `kind` from `nid` at `depth` turned `before` into `after` and
      reported `found`. */
  ghost predicate Searched(g: Graph, kind: PathKind, before: seq<Widget>, after: seq<Widget>,
                           nid: nat, depth: nat, found: bool)
  {
    && Leaves(kind, before, after)
    && (found <==> depth <= MAX_DEPTH && Reach(g, kind, nid, MAX_DEPTH - depth))
    && (if depth <= MAX_DEPTH then MarksPaths(g, kind, before, after, nid, MAX_DEPTH - depth) else after == before)
  }

  /** The same part of the way through the connections of widget `w`: the first `i` have
      been tried. */
  ghost predicate Trying(g: Graph, kind: PathKind, before: seq<Widget>, now: seq<Widget>,
                         w: nat, depth: nat, i: nat, found: bool)
    requires depth <= MAX_DEPTH && w < |g.nodes| && i <= |g.nodes[w].conns|
  {
    && Leaves(kind, before, now)
    && if depth == MAX_DEPTH then now == before && !found
       else
         && (found <==> ReachAny(g, kind, g.nodes[w].conns[..i], MAX_DEPTH - depth - 1))
         && MarksAll(g, kind, before, now, g.nodes[w].conns[..i], MAX_DEPTH - depth - 1, w)
  }

  lemma TryFirst(g: Graph, kind: PathKind, ws: seq<Widget>, w: nat, depth: nat)
    requires depth <= MAX_DEPTH && w < |g.nodes|
    ensures Trying(g, kind, ws, ws, w, depth, 0, false)
  {
  }

  lemma LeavesTransitive(kind: PathKind, a: seq<Widget>, b: seq<Widget>, c: seq<Widget>)
    requires Leaves(kind, a, b) && Leaves(kind, b, c)
    ensures Leaves(kind, a, c)
  {
  }

  lemma TryFailed(g: Graph, kind: PathKind, before: seq<Widget>, now: seq<Widget>, after: seq<Widget>,
                  w: nat, depth: nat, i: nat, found: bool)
    requires depth <= MAX_DEPTH && w < |g.nodes| && i < |g.nodes[w].conns|
    requires Trying(g, kind, before, now, w, depth, i, found)
    requires Searched(g, kind, now, after, g.nodes[w].conns[i], depth + 1, false)
    ensures Trying(g, kind, before, after, w, depth, i + 1, found)
  {
    LeavesTransitive(kind, before, now, after);
    if depth < MAX_DEPTH {
      AnyGrows(g, kind, g.nodes[w].conns, i, MAX_DEPTH - depth - 1);
      MarksAfterFailure(g, kind, before, now, after, g.nodes[w].conns, i, MAX_DEPTH - depth - 1, w);
    }
  }

  /** The widget after a connection of it succeeded: marked, and the connection selected
      unless one already was. */
  function Chosen(kind: PathKind, w: Widget, i: nat): Widget {
    WithMark(kind, if w.currConn == -1 then w.(currConn := i) else w)
  }

  lemma TrySucceeded(g: Graph, kind: PathKind, before: seq<Widget>, now: seq<Widget>, after: seq<Widget>,
                     w: nat, depth: nat, i: nat, found: bool)
    requires depth <= MAX_DEPTH && w < |g.nodes| == |after| && i < |g.nodes[w].conns|
    requires Trying(g, kind, before, now, w, depth, i, found)
    requires Searched(g, kind, now, after, g.nodes[w].conns[i], depth + 1, true)
    ensures Trying(g, kind, before, after[w := Chosen(kind, after[w], i)], w, depth, i + 1, true)
  {
    var conns := g.nodes[w].conns;
    var z := after[w := Chosen(kind, after[w], i)];
    LeavesTransitive(kind, before, now, after);
    LeavesTransitive(kind, before, after, z);
    AnyGrows(g, kind, conns, i, MAX_DEPTH - depth - 1);
    MarksAfterSuccess(g, kind, before, now, after, z, conns, i, MAX_DEPTH - depth - 1, w);
  }

  /** The first connection that succeeds is the one chosen, if none was chosen yet. */
  lemma FirstFound(g: Graph, kind: PathKind, before: seq<Widget>, now: seq<Widget>, after: seq<Widget>,
                   w: nat, depth: nat, i: nat, found: bool)
    requires depth <= MAX_DEPTH && w < |g.nodes| == |now| == |after| && i < |g.nodes[w].conns|
    requires Inner(kind, g.nodes[w])
    requires Trying(g, kind, before, now, w, depth, i, found) && (found ==> now[w].currConn != -1)
    requires Searched(g, kind, now, after, g.nodes[w].conns[i], depth + 1, true)
    ensures after[w].currConn == -1 ==> Chooses(g, kind, g.start + w, i)
  {
    if after[w].currConn == -1 {
      var conns, k := g.nodes[w].conns, MAX_DEPTH - depth - 1;
      forall j | 0 <= j < i
        ensures !Reach(g, kind, conns[j], k)
      {
        assert conns[..i][j] == conns[j];
      }
      assert FirstWithin(g, kind, conns, i, k);
    }
  }

  lemma SearchKeeps(g: Graph, kind: PathKind, before: seq<Widget>, after: seq<Widget>, nid: nat, depth: nat,
                    found: bool, w: nat)
    requires Searched(g, kind, before, after, nid, depth, found) && w < |before|
    ensures w < |after| && (before[w].currConn != -1 ==> after[w].currConn == before[w].currConn)
  {
  }

  lemma TriedAll(g: Graph, kind: PathKind, before: seq<Widget>, now: seq<Widget>, nid: nat, depth: nat, found: bool)
    requires depth <= MAX_DEPTH && g.Has(nid) && g.At(nid).enabled && Inner(kind, g.At(nid)) && !Leaf(kind, g.At(nid))
    requires |now| == |g.nodes|
    requires Trying(g, kind, before, now, nid - g.start, depth, |g.At(nid).conns|, found)
    ensures Searched(g, kind, before, now, nid, depth, found)
  {
    assert g.At(nid).conns[..|g.At(nid).conns|] == g.At(nid).conns;
    if depth < MAX_DEPTH {
      MarksOfInner(g, kind, before, now, nid, MAX_DEPTH - depth);
    } else {
      assert forall x: nat | x < |now| :: Mark(kind, now[x]) <==>
             Mark(kind, before[x]) || OnPath(g, kind, nid, 0, g.start + x);
    }
  }

  /** A search that ends at once, at a leaf or at a widget it cannot enter. */
  lemma SearchedAtEnd(g: Graph, kind: PathKind, before: seq<Widget>, after: seq<Widget>, nid: nat, depth: nat,
                      found: bool)
    requires Holds(g, before)
    requires found ==> depth <= MAX_DEPTH && g.Has(nid) && g.At(nid).enabled && Leaf(kind, g.At(nid))
                       && !Inner(kind, g.At(nid))
                       && after == before[nid - g.start := WithMark(kind, before[nid - g.start])]
    requires !found ==> after == before
                        && (depth > MAX_DEPTH || !g.Has(nid) || !g.At(nid).enabled
                            || (!Leaf(kind, g.At(nid)) && !Inner(kind, g.At(nid))))
    ensures Searched(g, kind, before, after, nid, depth, found)
  {
  }

  // ---------------------------------------------------------------------------
  // Which widgets the playback pass wants
  // ---------------------------------------------------------------------------

  predicate OutputPin(c: Caps) {
    c.enabled && c.kind == PinComplex && c.outCap && (c.device == HpOut || c.device == Speaker || c.device == LineOut)
  }

  /** Connection `j` of output pin `p` leads through a mixer or selector to a converter. */
  ghost predicate Feeds(g: Graph, p: nat, j: nat) {
    && p < |g.nodes| && OutputPin(g.nodes[p]) && j < |g.nodes[p].conns|
    && var c := g.nodes[p].conns[j];
       && g.Has(c) && g.At(c).enabled && (g.At(c).kind == AudioMixer || g.At(c).kind == AudioSelector)
       && Reach(g, Dac, c, MAX_DEPTH)
  }

  /** `w` is that pin or lies between it and a converter. */
  ghost predicate WantedBy(g: Graph, p: nat, j: nat, w: nat) {
    Feeds(g, p, j) && (w == g.start + p || OnPath(g, Dac, g.nodes[p].conns[j], MAX_DEPTH, w))
  }

  /** Some pair before connection `j` of node `p` wants `w`. */
  ghost predicate WantedTo(g: Graph, p: nat, j: nat, w: nat) {
    exists p': nat, j': nat :: (p' < p || (p' == p && j' < j)) && WantedBy(g, p', j', w)
  }

  ghost predicate WantedForPlayback(g: Graph, w: nat) {
    exists p: nat, j: nat :: WantedBy(g, p, j, w)
  }

  ghost predicate PlaybackMarks(g: Graph, before: seq<Widget>, now: seq<Widget>, p: nat, j: nat) {
    |now| == |before| &&
    forall i: nat | i < |now| :: now[i].dac <==> before[i].dac || WantedTo(g, p, j, g.start + i)
  }

  lemma WantedNothing(g: Graph, ws: seq<Widget>)
    ensures PlaybackMarks(g, ws, ws, 0, 0)
  {
  }

  /** Past the connections of node `p`, or past a node that is no output pin. */
  lemma WantedNextNode(g: Graph, before: seq<Widget>, now: seq<Widget>, p: nat, j: nat)
    requires p < |g.nodes| && PlaybackMarks(g, before, now, p, j)
    requires j == |g.nodes[p].conns| || !OutputPin(g.nodes[p])
    ensures PlaybackMarks(g, before, now, p + 1, 0)
  {
    forall i: nat | i < |now|
      ensures now[i].dac <==> before[i].dac || WantedTo(g, p + 1, 0, g.start + i)
    {
      var w := g.start + i;
      if WantedTo(g, p, j, w) {
        var p': nat, j': nat :| (p' < p || (p' == p && j' < j)) && WantedBy(g, p', j', w);
        assert p' < p + 1;
      }
      if WantedTo(g, p + 1, 0, w) {
        var p': nat, j': nat :| (p' < p + 1 || (p' == p + 1 && j' < 0)) && WantedBy(g, p', j', w);
        assert p' < p || (p' == p && j' < j);
      }
    }
  }

  /** Past connection `j` of pin `p`, which leads nowhere. */
  lemma WantedSkip(g: Graph, before: seq<Widget>, now: seq<Widget>, p: nat, j: nat)
    requires PlaybackMarks(g, before, now, p, j) && !Feeds(g, p, j)
    ensures PlaybackMarks(g, before, now, p, j + 1)
  {
    forall i: nat | i < |now|
      ensures now[i].dac <==> before[i].dac || WantedTo(g, p, j + 1, g.start + i)
    {
      WantedStep(g, p, j, g.start + i);
    }
  }

  lemma WantedStep(g: Graph, p: nat, j: nat, w: nat)
    ensures WantedTo(g, p, j + 1, w) <==> WantedTo(g, p, j, w) || WantedBy(g, p, j, w)
  {
    if WantedTo(g, p, j, w) {
      var p': nat, j': nat :| (p' < p || (p' == p && j' < j)) && WantedBy(g, p', j', w);
      assert p' < p || (p' == p && j' < j + 1);
    }
    if WantedTo(g, p, j + 1, w) {
      var p': nat, j': nat :| (p' < p || (p' == p && j' < j + 1)) && WantedBy(g, p', j', w);
      assert (p' < p || (p' == p && j' < j)) || (p' == p && j' == j);
    }
  }

  /** Past connection `j` of pin `p`, which was searched and marked. */
  lemma WantedFound(g: Graph, before: seq<Widget>, now: seq<Widget>, mid: seq<Widget>, after: seq<Widget>, p: nat,
                    j: nat)
    requires PlaybackMarks(g, before, now, p, j) && Feeds(g, p, j)
    requires MarksPaths(g, Dac, now, mid, g.nodes[p].conns[j], MAX_DEPTH)
    requires p < |mid| && after == mid[p := Chosen(Dac, mid[p], j)]
    ensures PlaybackMarks(g, before, after, p, j + 1)
  {
    forall i: nat | i < |after|
      ensures after[i].dac <==> before[i].dac || WantedTo(g, p, j + 1, g.start + i)
    {
      WantedStep(g, p, j, g.start + i);
      assert Mark(Dac, mid[i]) <==> Mark(Dac, now[i]) || OnPath(g, Dac, g.nodes[p].conns[j], MAX_DEPTH, g.start + i);
    }
  }

  lemma WantedAll(g: Graph, before: seq<Widget>, now: seq<Widget>)
    requires PlaybackMarks(g, before, now, |g.nodes|, 0)
    ensures forall i: nat | i < |now| :: now[i].dac <==> before[i].dac || WantedForPlayback(g, g.start + i)
  {
    forall i: nat | i < |now|
      ensures now[i].dac <==> before[i].dac || WantedForPlayback(g, g.start + i)
    {
      var w := g.start + i;
      if WantedForPlayback(g, w) {
        var p: nat, j: nat :| WantedBy(g, p, j, w);
        assert p < |g.nodes|;
      }
    }
  }

  /** The pairs of output pin and connection that lead to a converter, counted. */
  ghost function FeedsOf(g: Graph, p: nat, j: nat): nat {
    if j == 0 then 0 else FeedsOf(g, p, j - 1) + if Feeds(g, p, j - 1) then 1 else 0
  }

  ghost function FeedsBefore(g: Graph, p: nat): nat
    requires p <= |g.nodes|
  {
    if p == 0 then 0 else FeedsBefore(g, p - 1) + FeedsOf(g, p - 1, |g.nodes[p - 1].conns|)
  }

  /** The pairs of a pin and one of its connections that lead to a converter. */
  ghost function FeedPairs(g: Graph, n: nat): set<(nat, nat)>
    requires n <= |g.nodes|
  {
    set p: nat, j: nat | p < n && j < |g.nodes[p].conns| && Feeds(g, p, j) :: (p, j)
  }

  ghost function PairsOf(g: Graph, p: nat, k: nat): set<(nat, nat)> {
    set j: nat | j < k && Feeds(g, p, j) :: (p, j)
  }

  lemma {:induction false} CountPairsOf(g: Graph, p: nat, k: nat)
    ensures |PairsOf(g, p, k)| == FeedsOf(g, p, k)
  {
    if k > 0 {
      CountPairsOf(g, p, k - 1);
      var one: set<(nat, nat)> := if Feeds(g, p, k - 1) then {(p, k - 1)} else {};
      assert PairsOf(g, p, k) == PairsOf(g, p, k - 1) + one;
      assert (p, k - 1) !in PairsOf(g, p, k - 1);
    }
  }

  lemma PairsJoin(g: Graph, n: nat)
    requires n < |g.nodes|
    ensures FeedPairs(g, n + 1) == FeedPairs(g, n) + PairsOf(g, n, |g.nodes[n].conns|)
  {
    hide Feeds;
    forall x: (nat, nat)
      ensures x in FeedPairs(g, n + 1) <==> x in FeedPairs(g, n) || x in PairsOf(g, n, |g.nodes[n].conns|)
    {
      assert x == (x.0, x.1);
    }
  }

  lemma PairsApart(g: Graph, n: nat)
    requires n < |g.nodes|
    ensures FeedPairs(g, n) !! PairsOf(g, n, |g.nodes[n].conns|)
  {
    hide Feeds;
  }

  /** That count is the number of them. */
  lemma {:induction false} CountPairs(g: Graph, n: nat)
    requires n <= |g.nodes|
    ensures |FeedPairs(g, n)| == FeedsBefore(g, n)
  {
    hide Feeds;
    if n == 0 {
      assert FeedPairs(g, 0) == {};
    } else {
      CountPairs(g, n - 1);
      CountPairsOf(g, n - 1, |g.nodes[n - 1].conns|);
      PairsJoin(g, n - 1);
      PairsApart(g, n - 1);
      hide FeedPairs, PairsOf;
    }
  }

  lemma {:induction false} NoFeeds(g: Graph, p: nat, j: nat)
    requires p < |g.nodes| && !OutputPin(g.nodes[p])
    ensures FeedsOf(g, p, j) == 0
  {
    if j > 0 {
      NoFeeds(g, p, j - 1);
    }
  }

  // ---------------------------------------------------------------------------
  // Which widgets the recording pass wants
  // ---------------------------------------------------------------------------

  predicate Recorder(c: Caps) { c.enabled && c.kind == AudioInput }

  ghost predicate RecordedTo(g: Graph, p: nat, w: nat) {
    exists a :: 0 <= a < p && a < |g.nodes| && Recorder(g.nodes[a]) && OnPath(g, Adc, g.start + a, MAX_DEPTH, w)
  }

  ghost predicate RecordingMarks(g: Graph, before: seq<Widget>, now: seq<Widget>, p: nat) {
    |now| == |before| &&
    forall i: nat | i < |now| :: now[i].adc <==> before[i].adc || RecordedTo(g, p, g.start + i)
  }

  lemma RecordedStep(g: Graph, p: nat, w: nat)
    requires p < |g.nodes|
    ensures RecordedTo(g, p + 1, w) <==>
              RecordedTo(g, p, w) || (Recorder(g.nodes[p]) && OnPath(g, Adc, g.start + p, MAX_DEPTH, w))
  {
    hide OnPath;
  }

  lemma RecordedNext(g: Graph, before: seq<Widget>, now: seq<Widget>, after: seq<Widget>, p: nat)
    requires p < |g.nodes| && RecordingMarks(g, before, now, p)
    requires if Recorder(g.nodes[p]) then MarksPaths(g, Adc, now, after, g.start + p, MAX_DEPTH) else after == now
    ensures RecordingMarks(g, before, after, p + 1)
  {
    hide OnPath, RecordedTo;
    forall i: nat | i < |after|
      ensures after[i].adc <==> before[i].adc || RecordedTo(g, p + 1, g.start + i)
    {
      var w := g.start + i;
      RecordedStep(g, p, w);
      if Recorder(g.nodes[p]) {
        assert Mark(Adc, after[i]) <==> Mark(Adc, now[i]) || OnPath(g, Adc, g.start + p, MAX_DEPTH, w);
      }
    }
  }

  // ---------------------------------------------------------------------------
  // The marks said with explicit paths
  // ---------------------------------------------------------------------------

  /** Each of the nodes is enabled and connects to the next. */
  ghost predicate Leads(g: Graph, path: seq<nat>) {
    && 0 < |path| <= MAX_DEPTH + 1
    && (forall i :: 0 <= i < |path| ==> g.Has(path[i]) && g.At(path[i]).enabled)
    && (forall i :: 0 <= i < |path| - 1 ==> path[i + 1] in g.At(path[i]).conns)
  }

  ghost predicate Mixes(g: Graph, nid: nat) {
    g.Has(nid) && (g.At(nid).kind == AudioMixer || g.At(nid).kind == AudioSelector)
  }

  /** From the output pin `p`, meant for line, speaker or headphones, `path` leads through mixers
      and selectors, of which there is one at least, to an output converter. */
  ghost predicate Plays(g: Graph, p: nat, path: seq<nat>) {
    && g.Has(p) && g.At(p).enabled && g.At(p).kind == PinComplex && g.At(p).outCap
    && (g.At(p).device == LineOut || g.At(p).device == Speaker || g.At(p).device == HpOut)
    && Leads(g, path) && path[0] in g.At(p).conns && Mixes(g, path[0])
    && (forall i :: 0 <= i < |path| - 1 ==> Mixes(g, path[i]))
    && g.At(path[|path| - 1]).kind == AudioOutput
  }

  /** From an input converter `path` leads through mixers, selectors and other input converters to
      an input pin for CD, line or microphone. */
  ghost predicate RecordsBy(g: Graph, path: seq<nat>) {
    && Leads(g, path) && g.At(path[0]).kind == AudioInput
    && (forall i :: 0 <= i < |path| - 1 ==> Mixes(g, path[i]) || g.At(path[i]).kind == AudioInput)
    && var pin := g.At(path[|path| - 1]);
       pin.kind == PinComplex && pin.inCap && (pin.device == Cd || pin.device == LineIn || pin.device == MicIn)
  }

  lemma IsPathIs(g: Graph, kind: PathKind, path: seq<nat>)
    ensures IsPath(g, kind, path) && |path| <= MAX_DEPTH + 1 <==>
            && Leads(g, path) && (forall i :: 0 <= i < |path| - 1 ==> Inner(kind, g.At(path[i])))
            && Leaf(kind, g.At(path[|path| - 1]))
  {
    if IsPath(g, kind, path) && |path| <= MAX_DEPTH + 1 {
      assert forall i :: 0 <= i < |path| - 1 ==> Step(g, kind, path[i], path[i + 1]);
      forall i | 0 <= i < |path|
        ensures g.Has(path[i]) && g.At(path[i]).enabled && (i < |path| - 1 ==> Inner(kind, g.At(path[i])))
      {
        assert i < |path| - 1 ==> Step(g, kind, path[i], path[i + 1]);
      }
      assert Leads(g, path);
    } else if Leads(g, path) && forall i :: 0 <= i < |path| - 1 ==> Inner(kind, g.At(path[i])) {
      forall i | 0 <= i < |path| - 1
        ensures Step(g, kind, path[i], path[i + 1])
      {
        assert Inner(kind, g.At(path[i]));
      }
    }
  }

  lemma WantedPlays(g: Graph, p: nat, j: nat, w: nat) returns (path: seq<nat>)
    requires WantedBy(g, p, j, w)
    ensures Plays(g, g.start + p, path) && (w == g.start + p || w in path)
  {
    var c := g.nodes[p].conns[j];
    ReachIffPath(g, Dac, c, MAX_DEPTH);
    OnPathIffPath(g, Dac, c, MAX_DEPTH, w);
    path :| PathFrom(g, Dac, c, MAX_DEPTH, path) && (w == g.start + p || w in path);
    hide Reach, OnPath;
    IsPathIs(g, Dac, path);
  }

  lemma PlaysWanted(g: Graph, p: nat, path: seq<nat>, w: nat)
    requires Plays(g, p, path) && (w == p || w in path)
    ensures WantedForPlayback(g, w)
  {
    var j :| 0 <= j < |g.At(p).conns| && g.At(p).conns[j] == path[0];
    IsPathIs(g, Dac, path);
    assert PathFrom(g, Dac, path[0], MAX_DEPTH, path);
    ReachIffPath(g, Dac, path[0], MAX_DEPTH);
    OnPathIffPath(g, Dac, path[0], MAX_DEPTH, w);
    hide Reach, OnPath;
    assert WantedBy(g, p - g.start, j, w);
  }

  /** The playback marks are those of the pins that play and of what lies on such paths, */
  lemma PlayedIff(g: Graph, w: nat)
    ensures WantedForPlayback(g, w) <==> exists p: nat, path :: Plays(g, p, path) && (w == p || w in path)
  {
    hide WantedBy, Plays;
    if WantedForPlayback(g, w) {
      var p: nat, j: nat :| WantedBy(g, p, j, w);
      var path := WantedPlays(g, p, j, w);
    }
    if p: nat, path :| Plays(g, p, path) && (w == p || w in path) {
      PlaysWanted(g, p, path, w);
    }
  }

  /** and the recording marks those of what lies on the others. */
  lemma RecordedIff(g: Graph, w: nat)
    ensures RecordedTo(g, |g.nodes|, w) <==> exists path :: RecordsBy(g, path) && w in path
  {
    if RecordedTo(g, |g.nodes|, w) {
      var a :| 0 <= a < |g.nodes| && Recorder(g.nodes[a]) && OnPath(g, Adc, g.start + a, MAX_DEPTH, w);
      OnPathIffPath(g, Adc, g.start + a, MAX_DEPTH, w);
      var path :| PathFrom(g, Adc, g.start + a, MAX_DEPTH, path) && w in path;
      IsPathIs(g, Adc, path);
      assert RecordsBy(g, path);
    }
    if path :| RecordsBy(g, path) && w in path {
      IsPathIs(g, Adc, path);
      assert PathFrom(g, Adc, path[0], MAX_DEPTH, path);
      OnPathIffPath(g, Adc, path[0], MAX_DEPTH, w);
      assert Recorder(g.nodes[path[0] - g.start]) && g.start + (path[0] - g.start) == path[0];
    }
  }

  /** What BuildRecSelector may change. */
  ghost predicate OnlyRecSel(before: seq<Widget>, after: seq<Widget>) {
    |after| == |before| && forall i :: 0 <= i < |after| ==> after[i] == before[i].(recSel := after[i].recSel)
  }

  /** The input converters that record. */
  function Recorders(g: Graph, ws: seq<Widget>): set<nat> {
    set n: nat | g.start <= n < g.start + |ws| && Records(g, ws, n)
  }

  predicate Records(g: Graph, ws: seq<Widget>, n: nat) {
    && g.start <= n < g.start + |ws|
    && var w := ws[n - g.start]; w.caps.enabled && w.caps.kind == AudioInput && w.adc
  }

  lemma RecordersStay(g: Graph, before: seq<Widget>, after: seq<Widget>)
    requires OnlyRecSel(before, after)
    ensures Recorders(g, after) == Recorders(g, before)
  {
    forall n: nat
      ensures n in Recorders(g, after) <==> n in Recorders(g, before)
    {
      assert Records(g, after, n) <==> Records(g, before, n);
    }
  }

  /** The widgets that the search for selectors has come to are marked. */
  ghost predicate SelectorsMarked(g: Graph, ws: seq<Widget>, ways: map<nat, seq<nat>>) {
    forall i: nat | i < |ws| :: ws[i].recSel <==> g.start + i in ways
  }

  /** From every widget marked, and every one with a connection selected by the pass. */
  ghost predicate AllFollow(g: Graph, kind: PathKind, ws: seq<Widget>, base: seq<nat>, order: seq<nat>)
    requires Holds(g, ws)
  {
    && (forall i: nat | i < |ws| && Mark(kind, ws[i]) && ws[i].caps.enabled ::
          Follows(g, kind, ws, base, g.start + i, |order|))
    && (forall n: nat | n in order && g.Has(n) && g.At(n).enabled :: Follows(g, kind, ws, base, n, |order|))
  }

  /** The playback marks are on exactly the output pins that play and the widgets between them
      and a converter, the recording marks on exactly the widgets between an input converter and
      an input pin. */
  ghost predicate RightMarks(g: Graph, ws: seq<Widget>) {
    && (forall i: nat | i < |ws| :: ws[i].dac <==> WantedForPlayback(g, g.start + i))
    && (forall i: nat | i < |ws| :: ws[i].adc <==> RecordedTo(g, |ws|, g.start + i))
  }

  /** The selected connections of every widget marked for playback lead to a converter; those of
      every widget marked for recording lead to an input pin or to a widget whose connection the
      playback pass selected, and to a pin exactly if they meet no such widget.  Each selected
      connection is the first that leads on, and no others are selected. */
  ghost predicate RightChoices(g: Graph, ws: seq<Widget>, order: seq<nat>, taken: seq<nat>)
    requires Holds(g, ws)
  {
    && AllFollow(g, Dac, ws, [], order) && AllFollow(g, Adc, ws, order, taken)
    && (forall i: nat | i < |ws| && ws[i].dac && ws[i].caps.kind != AudioOutput :: g.start + i in order)
    && (forall i: nat, m: nat | i < |ws| && ws[i].adc && ws[i].caps.enabled && |taken| <= m ::
          FollowsToPin(g, ws, i, m) <==> !Meets(g, Adc, ws, order, g.start + i, |taken|))
    && AllChose(g, Dac, ws, order) && AllChose(g, Adc, ws, taken)
    && (forall i: nat | i < |ws| && ws[i].currConn != -1 :: g.start + i in order || g.start + i in taken)
  }

  /** Marked as selectors for recording are exactly the widgets with several connections that the
      search comes to.  Each lies at most 10 connections behind an input converter that records;
      and where no way without repetitions is too long, all that lie behind one are marked. */
  ghost predicate RightSelectors(g: Graph, ws: seq<Widget>, ways: map<nat, seq<nat>>) {
    && SelectorsMarked(g, ws, ways) && FirstWays(g, Recorders(g, ws), ways)
    && (forall i: nat | i < |ws| && ws[i].recSel ::
          Several(g, g.start + i) && LedTo(g, Recorders(g, ws), g.start + i, MAX_DEPTH))
    && (Shallow(g, Recorders(g, ws)) ==> forall i: nat | i < |ws| ::
          ws[i].recSel <==> Several(g, g.start + i) && Led(g, Recorders(g, ws), g.start + i))
  }

  /** One audio function group with its widgets (DEVINFO). */
  class DevInfo {
    const startNode: nat
    const pWidget: array<Widget>
    ghost const g: Graph
    /** The widgets whose connection the playback pass has selected, and the recording pass. */
    ghost var order: seq<nat>
    ghost var taken: seq<nat>
    /** The widgets that the search for selectors marks, with the way it first comes to each. */
    ghost var ways: map<nat, seq<nat>>

    ghost predicate Valid()
      reads this, pWidget
    {
      g.start == startNode && Holds(g, pWidget[..])
    }

    /** The widgets as they are parsed: nothing is marked, and no connection selected. */
    constructor (start: nat, nodes: seq<Caps>)
      ensures fresh(pWidget) && Valid() && g == Graph(start, nodes) && order == taken == [] && ways == map[]
      ensures forall i: nat | i < pWidget.Length :: pWidget[i] == Widget(nodes[i], false, false, false, -1)
    {
      startNode, g, order, taken, ways := start, Graph(start, nodes), [], [], map[];
      pWidget := new Widget[|nodes|](i requires 0 <= i < |nodes| => Widget(nodes[i], false, false, false, -1));
    }

    ghost predicate InPlaybackPass()
      reads this, pWidget
      requires Holds(g, pWidget[..])
    {
      taken == [] && Passing(g, Dac, pWidget[..], [], order)
    }

    ghost predicate InRecordingPass()
      reads this, pWidget
      requires Holds(g, pWidget[..])
    {
      Recording(g, pWidget[..], order, taken)
    }

    predicate Has(nid: nat) { startNode <= nid < startNode + pWidget.Length }

    /** The playback search from `nid`: nonzero exactly if a path of at most 10 - depth
        connections leads to a converter; it marks the widgets on such paths and no
        others. */
    method FindDacPath(nid: nat, depth: nat) returns (ret: nat)
      requires Valid() && InPlaybackPass()
      modifies pWidget, `order
      ensures Valid() && InPlaybackPass() && old(order) <= order
      ensures Searched(g, Dac, old(pWidget[..]), pWidget[..], nid, depth, ret != 0)
      ensures ret != 0 ==> Settled(g, Dac, [], order, nid)
      decreases if depth > MAX_DEPTH then 0 else MAX_DEPTH + 1 - depth
    {
      hide Searched, Trying, Chosen, Passing, Chooses;
      ghost var before := pWidget[..];
      ret := 0;
      if depth > MAX_DEPTH {
        SearchedAtEnd(g, Dac, before, before, nid, depth, false);
        return;
      }
      if !Has(nid) || !pWidget[nid - startNode].caps.enabled {
        SearchedAtEnd(g, Dac, before, before, nid, depth, false);
        return;
      }
      var w := nid - startNode;
      match pWidget[w].caps.kind
      case AudioOutput =>
        pWidget[w] := pWidget[w].(dac := true);
        ret := 1;
        LeafPasses(g, Dac, before, [], order, w);
        SearchedAtEnd(g, Dac, before, pWidget[..], nid, depth, true);
      case AudioMixer | AudioSelector =>
        var conns := pWidget[w].caps.conns;
        TryFirst(g, Dac, before, w, depth);
        for i := 0 to |conns|
          invariant Valid() && InPlaybackPass() && old(order) <= order
          invariant Trying(g, Dac, before, pWidget[..], w, depth, i, ret != 0)
          invariant ret != 0 ==> nid in order && pWidget[w].currConn != -1
        {
          ghost var now := pWidget[..];
          var r := FindDacPath(conns[i], depth + 1);
          SearchKeeps(g, Dac, now, pWidget[..], conns[i], depth + 1, r != 0, w);
          if r != 0 {
            FirstFound(g, Dac, before, now, pWidget[..], w, depth, i, ret != 0);
            TrySucceeded(g, Dac, before, now, pWidget[..], w, depth, i, ret != 0);
            Select(w, i);
            ret := 1;
          } else {
            TryFailed(g, Dac, before, now, pWidget[..], w, depth, i, ret != 0);
          }
        }
        TriedAll(g, Dac, before, pWidget[..], nid, depth, ret != 0);
      case _ =>
        SearchedAtEnd(g, Dac, before, before, nid, depth, false);
    }

    /** Connection `i` of widget `w` leads to a converter: marks the widget, and selects the
        connection unless one is selected already. */
    method Select(w: nat, i: nat)
      requires Valid() && InPlaybackPass() && w < pWidget.Length && i < |g.nodes[w].conns|
      requires Picks(Dac, g.nodes[w]) && Settled(g, Dac, [], order, g.nodes[w].conns[i])
      requires pWidget[w].currConn == -1 ==> Chooses(g, Dac, startNode + w, i)
      modifies pWidget, `order
      ensures Valid() && InPlaybackPass() && old(order) <= order && startNode + w in order
      ensures pWidget[..] == old(pWidget[..])[w := Chosen(Dac, old(pWidget[w]), i)] && pWidget[w].currConn != -1
    {
      hide Passing, Settled, Chooses;
      ChosenPasses(g, Dac, pWidget[..], [], order, w, i);
      order := Listed(g, pWidget[..], order, w);
      if pWidget[w].currConn == -1 {
        pWidget[w] := pWidget[w].(currConn := i);
      }
      pWidget[w] := pWidget[w].(dac := true);
      assert pWidget[..] == old(pWidget[..])[w := Chosen(Dac, old(pWidget[w]), i)];
    }

    /** The playback pass: the search from every connection of every output pin that goes
        to a mixer or selector.  Returns how many of those connections play. */
    method EnumDacPath() returns (dacCount: nat)
      requires Valid() && InPlaybackPass()
      modifies pWidget, `order
      ensures Valid() && InPlaybackPass()
      ensures Leaves(Dac, old(pWidget[..]), pWidget[..])
      ensures forall i: nat | i < pWidget.Length ::
                pWidget[i].dac <==> old(pWidget[i].dac) || WantedForPlayback(g, startNode + i)
      ensures dacCount == |FeedPairs(g, |g.nodes|)|
    {
      hide Searched, Passing, Chosen, Leaves, Feeds, PlaybackMarks, MarksPaths;
      ghost var before := pWidget[..];
      dacCount := 0;
      WantedNothing(g, before);
      LeavesNothing(Dac, before);
      for p := 0 to pWidget.Length
        invariant Valid() && InPlaybackPass() && Leaves(Dac, before, pWidget[..])
        invariant PlaybackMarks(g, before, pWidget[..], p, 0)
        invariant dacCount == FeedsBefore(g, p)
      {
        if OutputPin(pWidget[p].caps) {
          var n := EnumPin(p, before);
          dacCount := dacCount + n;
          WantedNextNode(g, before, pWidget[..], p, |g.nodes[p].conns|);
        } else {
          WantedNextNode(g, before, pWidget[..], p, 0);
          NoFeeds(g, p, |g.nodes[p].conns|);
        }
      }
      WantedAll(g, before, pWidget[..]);
      CountPairs(g, |g.nodes|);
    }

    /** The connections of one output pin. */
    method EnumPin(p: nat, ghost before: seq<Widget>) returns (count: nat)
      requires Valid() && InPlaybackPass() && p < pWidget.Length && OutputPin(pWidget[p].caps)
      requires Leaves(Dac, before, pWidget[..]) && PlaybackMarks(g, before, pWidget[..], p, 0)
      modifies pWidget, `order
      ensures Valid() && InPlaybackPass() && Leaves(Dac, before, pWidget[..])
      ensures PlaybackMarks(g, before, pWidget[..], p, |g.nodes[p].conns|)
      ensures count == FeedsOf(g, p, |g.nodes[p].conns|)
    {
      hide Passing, Chosen, PlaybackMarks, MarksPaths, Reach;
      var conns := pWidget[p].caps.conns;
      count := 0;
      for j := 0 to |conns|
        invariant Valid() && InPlaybackPass() && Leaves(Dac, before, pWidget[..])
        invariant PlaybackMarks(g, before, pWidget[..], p, j)
        invariant count == FeedsOf(g, p, j)
        invariant pWidget[p].currConn == -1 ==> forall i: nat | i < j :: !Feeds(g, p, i)
      {
        var c := conns[j];
        ghost var now := pWidget[..];
        if Has(c) && pWidget[c - startNode].caps.enabled &&
           (pWidget[c - startNode].caps.kind == AudioMixer || pWidget[c - startNode].caps.kind == AudioSelector)
        {
          var r := FindDacPath(c, 0);
          ghost var mid := pWidget[..];
          LeavesTransitive(Dac, before, now, mid);
          SearchKeeps(g, Dac, now, mid, c, 0, r != 0, p);
          if r != 0 {
            assert Feeds(g, p, j);
            Select(p, j);
            WantedFound(g, before, now, mid, pWidget[..], p, j);
            ChosenLeaves(mid, p, j);
            LeavesTransitive(Dac, before, mid, pWidget[..]);
            count := count + 1;
          } else {
            NothingMarked(g, now, mid, c);
            SameMarks(g, before, now, mid, p, j);
            WantedSkip(g, before, mid, p, j);
          }
        } else {
          WantedSkip(g, before, now, p, j);
        }
      }
    }

    /** The recording search from `nid`.  A connection that is already selected, by the
        playback pass in particular, is not touched. */
    method FindAdcPath(nid: nat, depth: nat) returns (ret: nat)
      requires Valid() && InRecordingPass()
      modifies pWidget, `taken
      ensures Valid() && InRecordingPass() && old(taken) <= taken
      ensures ret != 0 ==> Settled(g, Adc, order, taken, nid)
      ensures Searched(g, Adc, old(pWidget[..]), pWidget[..], nid, depth, ret != 0)
      decreases if depth > MAX_DEPTH then 0 else MAX_DEPTH + 1 - depth
    {
      hide Searched, Trying, Chosen, Recording, Chooses, Settled, Reach;
      ghost var before := pWidget[..];
      ret := 0;
      if depth > MAX_DEPTH {
        SearchedAtEnd(g, Adc, before, before, nid, depth, false);
        return;
      }
      if !Has(nid) || !pWidget[nid - startNode].caps.enabled {
        SearchedAtEnd(g, Adc, before, before, nid, depth, false);
        return;
      }
      var w := nid - startNode;
      match pWidget[w].caps.kind
      case AudioInput | AudioSelector | AudioMixer =>
        var conns := pWidget[w].caps.conns;
        TryFirst(g, Adc, before, w, depth);
        for i := 0 to |conns|
          invariant Valid() && InRecordingPass() && old(taken) <= taken
          invariant ret != 0 ==> (nid in order || nid in taken) && pWidget[w].currConn != -1
          invariant Trying(g, Adc, before, pWidget[..], w, depth, i, ret != 0)
        {
          ghost var now := pWidget[..];
          var r := FindAdcPath(conns[i], depth + 1);
          SearchKeeps(g, Adc, now, pWidget[..], conns[i], depth + 1, r != 0, w);
          if r != 0 {
            FirstFound(g, Adc, before, now, pWidget[..], w, depth, i, ret != 0);
            TrySucceeded(g, Adc, before, now, pWidget[..], w, depth, i, ret != 0);
            SelectForRecording(w, i);
            ret := 1;
          } else {
            TryFailed(g, Adc, before, now, pWidget[..], w, depth, i, ret != 0);
          }
        }
        TriedAll(g, Adc, before, pWidget[..], nid, depth, ret != 0);
        SettledIs(g, Adc, order, taken, nid);
      case PinComplex =>
        ret := TryInputPin(nid, depth);
      case _ =>
        SearchedAtEnd(g, Adc, before, before, nid, depth, false);
    }

    /** The search ends at a pin. */
    method TryInputPin(nid: nat, depth: nat) returns (ret: nat)
      requires Valid() && InRecordingPass() && depth <= MAX_DEPTH
      requires g.Has(nid) && g.At(nid).enabled && g.At(nid).kind == PinComplex
      modifies pWidget
      ensures Valid() && InRecordingPass() && (ret != 0 ==> Settled(g, Adc, order, taken, nid))
      ensures Searched(g, Adc, old(pWidget[..]), pWidget[..], nid, depth, ret != 0)
    {
      hide Passing, Searched;
      ghost var before := pWidget[..];
      var w, caps := nid - startNode, pWidget[nid - startNode].caps;
      ret := 0;
      if caps.inCap && (caps.device == Cd || caps.device == LineIn || caps.device == MicIn) {
        LeafPasses(g, Adc, before, order, taken, w);
        pWidget[w] := pWidget[w].(adc := true);
        SelectedSurvives(g, Dac, before, pWidget[..], [], order);
        ret := 1;
      }
      SearchedAtEnd(g, Adc, before, pWidget[..], nid, depth, ret != 0);
    }

    /** Connection `i` of widget `w` leads to an input pin or to a widget whose connection is
        selected. */
    method SelectForRecording(w: nat, i: nat)
      requires Valid() && InRecordingPass() && w < pWidget.Length && i < |g.nodes[w].conns|
      requires Picks(Adc, g.nodes[w]) && Settled(g, Adc, order, taken, g.nodes[w].conns[i])
      requires pWidget[w].currConn == -1 ==> Chooses(g, Adc, startNode + w, i)
      modifies pWidget, `taken
      ensures Valid() && InRecordingPass() && old(taken) <= taken && (startNode + w in order || startNode + w in taken)
      ensures pWidget[..] == old(pWidget[..])[w := Chosen(Adc, old(pWidget[w]), i)] && pWidget[w].currConn != -1
    {
      hide Passing, Settled, Chooses;
      ghost var before := pWidget[..];
      ChosenPasses(g, Adc, before, order, taken, w, i);
      taken := Listed(g, before, taken, w);
      if pWidget[w].currConn == -1 {
        pWidget[w] := pWidget[w].(currConn := i);
      }
      pWidget[w] := pWidget[w].(adc := true);
      assert pWidget[..] == before[w := Chosen(Adc, before[w], i)];
      SelectedSurvives(g, Dac, before, pWidget[..], [], order);
    }

    /** Marks the widgets with several connections that it comes to by `way` and beyond, unless
        an earlier way has come to them; and goes no further than 10 connections. */
    method BuildRecSelector(nid: nat, depth: nat, ghost starts: set<nat>, ghost way: seq<nat>) returns (ret: nat)
      requires Valid() && SelectorsMarked(g, pWidget[..], ways)
      requires |way| == depth + 1 && AboutToTry(g, starts, ways, way, nid)
      modifies pWidget, `ways
      ensures Valid() && SelectorsMarked(g, pWidget[..], ways) && OnlyRecSel(old(pWidget[..]), pWidget[..])
      ensures Tried(g, starts, old(ways), ways, way)
      ensures ret != 0 <==> depth <= MAX_DEPTH && Open(g, nid) && nid !in old(ways)
      decreases if depth > MAX_DEPTH then 0 else MAX_DEPTH + 1 - depth
    {
      hide AboutToTry, Tried, GoneOn, Sound, Ends;
      ghost var was := ways;
      TryMeans(g, starts, ways, way, nid);
      if depth > MAX_DEPTH || !Has(nid) || !pWidget[nid - startNode].caps.enabled {
        TriedNothing(g, starts, ways, way);
        return 0;
      }
      var w := nid - startNode;
      if pWidget[w].caps.kind == PinComplex || pWidget[w].recSel {
        if nid in ways {
          TriedAgain(g, starts, ways, way, nid);
        } else {
          TriedNothing(g, starts, ways, way);
        }
        return 0;
      }
      GoesOn(g, starts, ways, way, nid);
      var conns := pWidget[w].caps.conns;
      if |conns| > 1 {
        pWidget[w] := pWidget[w].(recSel := true);
        ways := ways[nid := way];
      }
      for i := 0 to |conns|
        invariant Valid() && SelectorsMarked(g, pWidget[..], ways) && OnlyRecSel(old(pWidget[..]), pWidget[..])
        invariant GoneOn(g, starts, was, ways, way, nid, i)
      {
        ghost var now := ways;
        TryNext(g, starts, was, now, way, nid, i);
        var _ := BuildRecSelector(conns[i], depth + 1, starts, way + [i]);
        TriedNext(g, starts, was, now, ways, way, nid, i);
      }
      TriedWhole(g, starts, was, ways, way, nid);
      return 1;
    }

    /** All three passes, on widgets that nothing has marked or selected yet. */
    method BuildTopology()
      requires Valid() && order == taken == []
      requires forall i: nat | i < pWidget.Length ::
                 !pWidget[i].dac && !pWidget[i].adc && !pWidget[i].recSel && pWidget[i].currConn == -1
      modifies pWidget, `order, `taken, `ways
      ensures Valid() && RightMarks(g, pWidget[..])
      ensures RightChoices(g, pWidget[..], order, taken) && RightSelectors(g, pWidget[..], ways)
    {
      hide WantedForPlayback, Selected, Complete, Only, RecordingMarks, RightMarks, RightChoices, RightSelectors;
      ghost var w0 := pWidget[..];
      NothingPassed(g, w0);
      var _ := EnumDacPath();
      ghost var w1 := pWidget[..];
      PlaybackPassed(g, w1, order);
      RecordPass();
      ghost var w2 := pWidget[..];
      RecSelPass();
      hide *;
      PassesMark(g, w0, w1, w2, pWidget[..]);
      PassesLead(g, w2, pWidget[..], order, taken);
    }

    /** The second loop of BuildTopology. */
    method RecordPass()
      requires Valid() && InRecordingPass()
      modifies pWidget, `taken
      ensures Valid() && InRecordingPass() && Leaves(Adc, old(pWidget[..]), pWidget[..])
      ensures RecordingMarks(g, old(pWidget[..]), pWidget[..], pWidget.Length)
    {
      hide RecordingMarks, MarksPaths, Recording;
      ghost var before := pWidget[..];
      RecordedNothing(g, before);
      for p := 0 to pWidget.Length
        invariant Valid() && InRecordingPass() && Leaves(Adc, before, pWidget[..])
        invariant RecordingMarks(g, before, pWidget[..], p)
      {
        ghost var now := pWidget[..];
        if Recorder(pWidget[p].caps) {
          var _ := FindAdcPath(startNode + p, 0);
          LeavesTransitive(Adc, before, now, pWidget[..]);
        }
        RecordedNext(g, before, now, pWidget[..], p);
      }
    }

    /** The third loop of BuildTopology. */
    method RecSelPass()
      requires Valid() && forall i: nat | i < pWidget.Length :: !pWidget[i].recSel
      modifies pWidget, `ways
      ensures Valid() && OnlyRecSel(old(pWidget[..]), pWidget[..])
      ensures RightSelectors(g, pWidget[..], ways)
    {
      hide FirstWays, Started, RightSelectors, SelectorsMarked, OnlyRecSel, Recorders, Holds;
      ghost var before := pWidget[..];
      ghost var starts := Recorders(g, before);
      ways := map[];
      BeginsUnmarked(g, before, startNode);
      for p := 0 to pWidget.Length
        invariant Valid() && SelectorsMarked(g, pWidget[..], ways) && OnlyRecSel(before, pWidget[..])
        invariant Started(g, starts, ways, startNode + p)
      {
        SearchFrom(p, starts, before);
      }
      EndsMarked(g, before, pWidget[..], ways, startNode + pWidget.Length);
    }

    /** The search from widget `p`, if it records. */
    method SearchFrom(p: nat, ghost starts: set<nat>, ghost before: seq<Widget>)
      requires Valid() && SelectorsMarked(g, pWidget[..], ways) && OnlyRecSel(before, pWidget[..])
      requires p < pWidget.Length && starts == Recorders(g, before) && Started(g, starts, ways, startNode + p)
      modifies pWidget, `ways
      ensures Valid() && SelectorsMarked(g, pWidget[..], ways) && OnlyRecSel(before, pWidget[..])
      ensures Started(g, starts, ways, startNode + p + 1)
    {
      hide Started, AboutToTry, Tried;
      ghost var now, first := ways, startNode + p;
      assert pWidget[p] == before[p].(recSel := pWidget[p].recSel) && before[p] == before[first - g.start];
      if pWidget[p].caps.enabled && pWidget[p].caps.kind == AudioInput && pWidget[p].adc {
        assert Records(g, before, first);
        StartNext(g, starts, now, first);
        var _ := BuildRecSelector(startNode + p, 0, starts, [first]);
        StartedNext(g, starts, now, ways, first);
      } else {
        SkipNext(g, starts, now, first);
      }
    }
  }

  lemma BeginsUnmarked(g: Graph, ws: seq<Widget>, p: nat)
    requires p == g.start && forall i: nat | i < |ws| :: !ws[i].recSel
    ensures SelectorsMarked(g, ws, map[]) && OnlyRecSel(ws, ws) && Started(g, Recorders(g, ws), map[], p)
  {
    NoneStarted(g, Recorders(g, ws), p);
  }

  lemma EndsMarked(g: Graph, before: seq<Widget>, ws: seq<Widget>, ways: map<nat, seq<nat>>, p: nat)
    requires Holds(g, ws) && SelectorsMarked(g, ws, ways) && OnlyRecSel(before, ws)
    requires p == g.start + |ws| && Started(g, Recorders(g, before), ways, p)
    ensures RightSelectors(g, ws, ways)
  {
    AllStarted(g, Recorders(g, before), ways, p);
    RecordersStay(g, before, ws);
    hide *;
    SelectorsCome(g, ws, ways);
  }

  /** What the three passes of BuildTopology come to: the marks, */
  lemma PassesMark(g: Graph, w0: seq<Widget>, w1: seq<Widget>, w2: seq<Widget>, w3: seq<Widget>)
    requires |w0| == |w1| && Leaves(Dac, w0, w1) && Leaves(Adc, w1, w2) && OnlyRecSel(w2, w3)
    requires forall i: nat | i < |w0| :: !w0[i].dac && !w0[i].adc
    requires forall i: nat | i < |w1| :: w1[i].dac <==> w0[i].dac || WantedForPlayback(g, g.start + i)
    requires RecordingMarks(g, w1, w2, |w1|)
    ensures RightMarks(g, w3)
  {
    hide WantedForPlayback, RecordedTo;
    forall i: nat | i < |w3|
      ensures w3[i].dac <==> WantedForPlayback(g, g.start + i)
      ensures w3[i].adc <==> RecordedTo(g, |w3|, g.start + i)
    {
      assert w3[i].dac == w2[i].dac == w1[i].dac;
      assert w3[i].adc == w2[i].adc && w1[i].adc == w0[i].adc;
    }
  }

  /** and where the selected connections lead. */
  lemma PassesLead(g: Graph, w2: seq<Widget>, w3: seq<Widget>, order: seq<nat>, taken: seq<nat>)
    requires Holds(g, w2) && OnlyRecSel(w2, w3) && Recording(g, w2, order, taken)
    ensures Holds(g, w3) && RightChoices(g, w3, order, taken)
  {
    hide Selected, Complete, Only, Follows, Meets, FollowsToPin, AllChose, AllFollow;
    PassLeads(g, Dac, w2, w3, [], order);
    PassLeads(g, Adc, w2, w3, order, taken);
    PassesEnd(g, w2, w3, order, taken);
  }

  lemma PassLeads(g: Graph, kind: PathKind, w2: seq<Widget>, w3: seq<Widget>, base: seq<nat>, order: seq<nat>)
    requires Holds(g, w2) && OnlyRecSel(w2, w3)
    requires Selected(g, kind, w2, base, order) && Complete(g, kind, w2, base, order)
    ensures Holds(g, w3) && Selected(g, kind, w3, base, order)
    ensures AllFollow(g, kind, w3, base, order)
  {
    hide Selected, Follows, Leaf;
    SelectedSurvives(g, kind, w2, w3, base, order);
    forall i: nat | i < |w3| && Mark(kind, w3[i]) && w3[i].caps.enabled
      ensures Follows(g, kind, w3, base, g.start + i, |order|)
    {
      MarkedFollows(g, kind, w3, base, order, i);
    }
    forall n: nat | n in order && g.Has(n) && g.At(n).enabled
      ensures Follows(g, kind, w3, base, n, |order|)
    {
      var j :| 0 <= j < |order| && order[j] == n;
      SelectedFollows(g, kind, w3, base, order, j);
      FollowsMonotone(g, kind, w3, base, n, j + 1, |order|);
    }
  }

  lemma PassesEnd(g: Graph, w2: seq<Widget>, w3: seq<Widget>, order: seq<nat>, taken: seq<nat>)
    requires Holds(g, w2) && OnlyRecSel(w2, w3) && Recording(g, w2, order, taken)
    ensures Holds(g, w3)
    ensures forall i: nat | i < |w3| && w3[i].dac && w3[i].caps.kind != AudioOutput :: g.start + i in order
    ensures forall i: nat, m: nat | i < |w3| && w3[i].adc && w3[i].caps.enabled && |taken| <= m ::
              FollowsToPin(g, w3, i, m) <==> !Meets(g, Adc, w3, order, g.start + i, |taken|)
    ensures AllChose(g, Dac, w3, order) && AllChose(g, Adc, w3, taken)
    ensures forall i: nat | i < |w3| && w3[i].currConn != -1 :: g.start + i in order || g.start + i in taken
  {
    hide SelectedAt, AllChose;
    SelectedSurvives(g, Dac, w2, w3, [], order);
    SelectedSurvives(g, Adc, w2, w3, order, taken);
    SelectedChose(g, Dac, w3, [], order);
    SelectedChose(g, Adc, w3, order, taken);
    hide Selected, Follows, Meets, FollowsToPin;
    assert Passed(g, w3, order, taken) && Complete(g, Adc, w3, order, taken);
    hide Passed, Complete, Recording;
    forall i: nat, m: nat | i < |w3| && w3[i].adc && w3[i].caps.enabled && |taken| <= m
      ensures FollowsToPin(g, w3, i, m) <==> !Meets(g, Adc, w3, order, g.start + i, |taken|)
    {
      ReachesPinIff(g, w3, order, taken, i, m);
    }
    assert forall i: nat | i < |w3| :: w3[i].dac == w2[i].dac && w3[i].caps == w2[i].caps;
    CompleteMeans(g, w2, order, taken);
  }

  lemma CompleteMeans(g: Graph, ws: seq<Widget>, order: seq<nat>, taken: seq<nat>)
    requires Holds(g, ws) && Recording(g, ws, order, taken)
    ensures forall i: nat | i < |ws| && ws[i].dac && ws[i].caps.kind != AudioOutput :: g.start + i in order
  {
    forall i: nat | i < |ws| && ws[i].dac && ws[i].caps.kind != AudioOutput
      ensures g.start + i in order
    {
      assert Mark(Dac, ws[i]) && !Leaf(Dac, ws[i].caps);
    }
  }

  lemma SelectorsCome(g: Graph, ws: seq<Widget>, ways: map<nat, seq<nat>>)
    requires Holds(g, ws) && SelectorsMarked(g, ws, ways) && FirstWays(g, Recorders(g, ws), ways)
    ensures RightSelectors(g, ws, ways)
  {
    hide FirstWays, Shallow, Led, LedTo, Recorders;
    forall i: nat | i < |ws|
      ensures ws[i].recSel ==> Several(g, g.start + i) && LedTo(g, Recorders(g, ws), g.start + i, MAX_DEPTH)
      ensures Shallow(g, Recorders(g, ws)) ==>
                (ws[i].recSel <==> Several(g, g.start + i) && Led(g, Recorders(g, ws), g.start + i))
    {
      ComesToLed(g, Recorders(g, ws), ways, g.start + i);
    }
  }

  lemma LeavesNothing(kind: PathKind, ws: seq<Widget>)
    ensures Leaves(kind, ws, ws)
  {
  }

  lemma ChosenLeaves(ws: seq<Widget>, p: nat, j: nat)
    requires p < |ws|
    ensures Leaves(Dac, ws, ws[p := Chosen(Dac, ws[p], j)])
  {
  }

  lemma RecordedNothing(g: Graph, ws: seq<Widget>)
    ensures RecordingMarks(g, ws, ws, 0)
  {
  }

  /** A failed search marks nothing. */
  lemma NothingMarked(g: Graph, before: seq<Widget>, after: seq<Widget>, nid: nat)
    requires Searched(g, Dac, before, after, nid, 0, false)
    ensures forall i: nat | i < |after| :: after[i].dac == before[i].dac
  {
    forall i: nat | i < |after|
      ensures after[i].dac == before[i].dac
    {
      assert Mark(Dac, after[i]) <==> Mark(Dac, before[i]) || OnPath(g, Dac, nid, MAX_DEPTH, g.start + i);
    }
  }

  lemma SameMarks(g: Graph, before: seq<Widget>, now: seq<Widget>, mid: seq<Widget>, p: nat, j: nat)
    requires PlaybackMarks(g, before, now, p, j) && |mid| == |now|
    requires forall i: nat | i < |mid| :: mid[i].dac == now[i].dac
    ensures PlaybackMarks(g, before, mid, p, j)
  {
  }
}
