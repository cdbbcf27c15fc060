/** Two codecs whose recording paths come out as one would not expect. */
module TopologyCases {
  import opened TopologyPaths
  import opened TopologySelectors
  import opened Topology

  // ---------------------------------------------------------------------------
  // A widget that playback and recording share
  // ---------------------------------------------------------------------------

  /** A speaker pin and an input converter, both behind one selector, which has a converter and
      a microphone to choose from. */
  function SharedSelector(): seq<Caps> {
    [Caps(PinComplex, true, [1], true, false, Speaker),
     Caps(AudioSelector, true, [2, 3], false, false, OtherDevice),
     Caps(AudioOutput, true, [], false, false, OtherDevice),
     Caps(PinComplex, true, [], false, true, MicIn),
     Caps(AudioInput, true, [1], false, false, OtherDevice)]
  }

  lemma SelectorShared()
    ensures var g := Graph(0, SharedSelector()); WantedForPlayback(g, 1) && RecordedTo(g, 5, 4)
  {
    var g := Graph(0, SharedSelector());
    assert Reach(g, Dac, 2, 9) && g.At(1).conns[0] == 2 && Reach(g, Dac, 1, 10);
    assert g.nodes[0].conns[0] == 1 && WantedBy(g, 0, 0, 1);
    assert Reach(g, Adc, 3, 8) && g.At(1).conns[1] == 3 && Reach(g, Adc, 1, 9);
    assert g.At(4).conns[0] == 1 && Reach(g, Adc, 4, 10);
    assert OnPath(g, Adc, g.start + 4, MAX_DEPTH, 4);
  }

  /** The input converter is marked for recording, and its selected connections never reach the
      microphone: the selector keeps the choice of the playback pass. */
  method RecordsNothing() returns (d: DevInfo)
    ensures d.Valid() && d.g == Graph(0, SharedSelector()) && d.pWidget.Length == 5 && d.pWidget[4].adc
    ensures forall m: nat | |d.taken| <= m :: !FollowsToPin(d.g, d.pWidget[..], 4, m)
  {
    hide WantedForPlayback, RecordedTo, Follows, Meets, FollowsToPin, AllChose, RightSelectors;
    d := new DevInfo(0, SharedSelector());
    SelectorShared();
    d.BuildTopology();
    ghost var ws := d.pWidget[..];
    assert ws[1].dac && ws[1].caps == SharedSelector()[1] && d.startNode + 1 in d.order;
    assert ws[4].adc && ws[4].caps == SharedSelector()[4];
    SelectorMeets(d.g, ws, d.order, |d.taken|);
  }

  lemma SelectorMeets(g: Graph, ws: seq<Widget>, order: seq<nat>, n: nat)
    requires g == Graph(0, SharedSelector()) && Holds(g, ws) && 1 in order && Follows(g, Adc, ws, order, 4, n)
    ensures Meets(g, Adc, ws, order, 4, n)
  {
    if 4 !in order {
      assert g.At(4).conns[ws[4].currConn] == 1;
      assert Meets(g, Adc, ws, order, 1, n - 1);
    }
  }

  // ---------------------------------------------------------------------------
  // A selector that is cut off
  // ---------------------------------------------------------------------------

  function Selector(conns: seq<nat>): Caps { Caps(AudioSelector, true, conns, false, false, OtherDevice) }

  /** An input converter and a selector behind it, once directly and once, as its first choice,
      by nine more; and another selector behind that one, with two microphones. */
  function DeepSelectors(): seq<Caps> {
    [Caps(AudioInput, true, [1, 10], false, false, OtherDevice),
     Selector([2]), Selector([3]), Selector([4]), Selector([5]), Selector([6]), Selector([7]), Selector([8]),
     Selector([9]), Selector([10]), Selector([11, 12]), Selector([12, 13]),
     Caps(PinComplex, true, [], false, true, MicIn), Caps(PinComplex, true, [], false, true, MicIn)]
  }

  function Zeros(k: nat): (way: seq<nat>)
    ensures |way| == k && forall i :: 0 <= i < k ==> way[i] == 0
  {
    seq(k, _ => 0)
  }

  lemma ChainGoesOn(i: nat)
    requires i < 10
    ensures var g := Graph(0, DeepSelectors());
            g.At(i).conns != [] && g.At(i).conns[0] == i + 1 && Open(g, i) && Open(g, i + 1)
  {
  }

  lemma {:induction false} ZerosEnd(k: nat)
    requires 0 < k <= 11
    ensures Ends(Graph(0, DeepSelectors()), Zeros(k)) == k - 1
  {
    if k == 1 {
      ChainGoesOn(0);
    } else {
      ChainGoesOn(k - 2);
      hide DeepSelectors;
      ZerosEnd(k - 1);
      assert Zeros(k)[..k - 1] == Zeros(k - 1);
    }
  }

  lemma {:induction false} ZerosFirst(a: seq<nat>, k: nat)
    requires |a| <= k && Before(a, Zeros(k))
    ensures a == Zeros(|a|) && |a| < k
  {
    if a != [] {
      assert Zeros(k)[1..] == Zeros(k - 1);
      ZerosFirst(a[1..], k - 1);
    }
  }

  /** The search first comes to the nearer selector with no connection left to go, */
  lemma DeepFirst(ways: map<nat, seq<nat>>)
    requires FirstWays(Graph(0, DeepSelectors()), {0}, ways)
    ensures 10 in ways && ways[10] == Zeros(11)
  {
    var g := Graph(0, DeepSelectors());
    ZerosPursued(ways);
    ZerosEnd(11);
    assert Comes(g, {0}, ways, Zeros(11));
    assert Taken(g, ways, Zeros(11));
    var way := ways[10];
    assert Comes(g, {0}, ways, way) && Ends(g, way) == 10;
    hide FirstWays, Comes, Taken, Ends, DeepSelectors, Kept;
    BeforeTotal(way, Zeros(11));
    if Before(way, Zeros(11)) {
      assert way != [] && |way| <= 11 by { ComesWithin(g, {0}, ways, way); }
      ZerosFirst(way, 11);
      ZerosEnd(|way|);
    }
  }

  lemma ComesWithin(g: Graph, starts: set<nat>, ways: map<nat, seq<nat>>, way: seq<nat>)
    requires Comes(g, starts, ways, way)
    ensures way != [] && |way| <= MAX_DEPTH + 1
  {
  }

  lemma ZerosPursued(ways: map<nat, seq<nat>>)
    requires FirstWays(Graph(0, DeepSelectors()), {0}, ways)
    ensures Pursued(Graph(0, DeepSelectors()), {0}, ways, Zeros(11))
  {
    DeepStart(ways);
    hide FirstWays, DeepSelectors, Ends;
    forall k | 0 < k < 11
      ensures Kept(Graph(0, DeepSelectors()), ways, Zeros(11)[..k])
    {
      assert Zeros(11)[..k] == Zeros(k);
      ZerosEnd(k);
      ChainIsSingle(k - 1);
    }
  }

  lemma ChainIsSingle(i: nat)
    ensures 0 < i < 10 ==> !Several(Graph(0, DeepSelectors()), i)
  {
  }

  lemma DeepStart(ways: map<nat, seq<nat>>)
    requires FirstWays(Graph(0, DeepSelectors()), {0}, ways)
    ensures 0 in ways && ways[0] == Zeros(1)
  {
    var g := Graph(0, DeepSelectors());
    ZerosEnd(1);
    assert Comes(g, {0}, ways, Zeros(1));
    assert Taken(g, ways, Zeros(1));
    BeforeTotal(ways[0], Zeros(1));
    assert Comes(g, {0}, ways, ways[0]);
    assert Zeros(1)[1..] == [];
  }

  lemma OnlyFromTen(n: nat, j: nat)
    requires n < 14 && j < |DeepSelectors()[n].conns| && DeepSelectors()[n].conns[j] == 11
    ensures n == 10
  {
  }

  /** and so never to the other, */
  lemma DeepLost(ways: map<nat, seq<nat>>)
    requires FirstWays(Graph(0, DeepSelectors()), {0}, ways)
    ensures 11 !in ways
  {
    var g := Graph(0, DeepSelectors());
    DeepFirst(ways);
    assert |g.nodes| == 14 && Several(g, 10);
    hide DeepSelectors, Before;
    if 11 in ways {
      var way := ways[11];
      assert Comes(g, {0}, ways, way);
      if |way| > 1 {
        assert Kept(g, ways, way[..|way| - 1]);
        OnlyFromTen(Ends(g, way[..|way| - 1]), way[|way| - 1]);
      }
    }
  }

  /** though it is two connections away. */
  lemma DeepLed()
    ensures LedTo(Graph(0, DeepSelectors()), {0}, 11, 2)
  {
    var g := Graph(0, DeepSelectors());
    assert Ends(g, [0]) == 0;
    assert [0, 1][..1] == [0];
    assert Ends(g, [0, 1]) == 10;
    assert [0, 1, 0][..2] == [0, 1];
    assert Ends(g, [0, 1, 0]) == 11;
  }

  lemma DeepInputs(n: nat)
    requires n < 14
    ensures Recorder(DeepSelectors()[n]) <==> n == 0
  {
  }

  lemma DeepRecords()
    ensures RecordedTo(Graph(0, DeepSelectors()), 14, 0)
  {
    var g := Graph(0, DeepSelectors());
    assert g.At(12) == Caps(PinComplex, true, [], false, true, MicIn) && g.At(10) == Selector([11, 12]);
    assert g.At(0).kind == AudioInput && g.At(0).enabled && g.At(0).conns == [1, 10];
    assert g.Has(0) && g.Has(10) && g.Has(12) && |g.nodes| == 14;
    hide DeepSelectors;
    assert Reach(g, Adc, 12, 8);
    assert g.At(10).conns[1] == 12 && Reach(g, Adc, 10, 9);
    assert g.At(0).conns[1] == 10 && Reach(g, Adc, 0, 10);
    hide Reach;
    assert OnPath(g, Adc, g.start + 0, MAX_DEPTH, 0);
  }

  /** The other selector is two connections from the input converter, which records, and is not
      marked. */
  method LosesSelector() returns (d: DevInfo)
    ensures d.Valid() && d.g == Graph(0, DeepSelectors()) && d.pWidget.Length == 14
    ensures Recorders(d.g, d.pWidget[..]) == {0} && Several(d.g, 11) && LedTo(d.g, {0}, 11, 2)
    ensures !d.pWidget[11].recSel
  {
    hide FirstWays, WantedForPlayback, RecordedTo, Follows, Meets, FollowsToPin, LedTo, Led, Shallow;
    d := new DevInfo(0, DeepSelectors());
    DeepRecords();
    d.BuildTopology();
    ghost var ws := d.pWidget[..];
    forall n: nat
      ensures Records(d.g, ws, n) <==> n == 0
    {
      if n < 14 {
        assert ws[n].caps == DeepSelectors()[n];
        DeepInputs(n);
      }
    }
    assert Recorders(d.g, ws) == {0};
    DeepLost(d.ways);
    DeepLed();
    assert ws[11].recSel <==> d.g.start + 11 in d.ways;
  }
}
