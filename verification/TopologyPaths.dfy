/** The widget graph of a codec and the bounded paths through it.  Connection lists are
    taken as they come: they may name nodes that do not exist and may form cycles. */
module TopologyPaths {

  const MAX_DEPTH: nat := 10

  datatype WidgetType = AudioOutput | AudioInput | AudioMixer | AudioSelector | PinComplex | OtherWidget

  datatype Device = LineOut | Speaker | HpOut | Cd | LineIn | MicIn | OtherDevice

  /** What the codec reports of a widget; nothing changes it. */
  datatype Caps = Caps(kind: WidgetType, enabled: bool, conns: seq<nat>, outCap: bool, inCap: bool, device: Device)

  /** The nodes `start`, `start + 1`, ... of one audio function group. */
  datatype Graph = Graph(start: nat, nodes: seq<Caps>) {
    predicate Has(nid: nat) { start <= nid < start + |nodes| }

    function At(nid: nat): Caps
      requires Has(nid)
    {
      nodes[nid - start]
    }
  }

  /** Playback paths end at a digital-to-analog converter, recording paths at an input pin. */
  datatype PathKind = Dac | Adc

  predicate Leaf(kind: PathKind, c: Caps) {
    match kind
    case Dac => c.kind == AudioOutput
    case Adc => c.kind == PinComplex && c.inCap && (c.device == Cd || c.device == LineIn || c.device == MicIn)
  }

  predicate Inner(kind: PathKind, c: Caps) {
    || c.kind == AudioMixer || c.kind == AudioSelector
    || (kind == Adc && c.kind == AudioInput)
  }

  // ---------------------------------------------------------------------------
  // Bounded reachability
  // ---------------------------------------------------------------------------

  /** From `nid` at most `k` connections lead through enabled inner widgets to a leaf. */
  ghost predicate Reach(g: Graph, kind: PathKind, nid: nat, k: nat)
    decreases k, 0
  {
    && g.Has(nid) && g.At(nid).enabled
    && (|| Leaf(kind, g.At(nid))
        || (Inner(kind, g.At(nid)) && 0 < k && ReachAny(g, kind, g.At(nid).conns, k - 1)))
  }

  ghost predicate ReachAny(g: Graph, kind: PathKind, conns: seq<nat>, k: nat)
    decreases k, 1
  {
    exists i :: 0 <= i < |conns| && Reach(g, kind, conns[i], k)
  }

  /** `w` lies on one of those paths. */
  ghost predicate OnPath(g: Graph, kind: PathKind, nid: nat, k: nat, w: nat)
    decreases k, 0
  {
    && Reach(g, kind, nid, k)
    && (|| w == nid
        || (Inner(kind, g.At(nid)) && 0 < k && OnAnyPath(g, kind, g.At(nid).conns, k - 1, w)))
  }

  ghost predicate OnAnyPath(g: Graph, kind: PathKind, conns: seq<nat>, k: nat, w: nat)
    decreases k, 1
  {
    exists i :: 0 <= i < |conns| && OnPath(g, kind, conns[i], k, w)
  }

  // ---------------------------------------------------------------------------
  // The same thing said with explicit paths
  // ---------------------------------------------------------------------------

  ghost predicate Step(g: Graph, kind: PathKind, a: nat, b: nat) {
    g.Has(a) && g.At(a).enabled && Inner(kind, g.At(a)) && b in g.At(a).conns
  }

  /** `p` runs from its first node along connections to a leaf. */
  ghost predicate IsPath(g: Graph, kind: PathKind, p: seq<nat>) {
    && 0 < |p|
    && (forall i :: 0 <= i < |p| - 1 ==> Step(g, kind, p[i], p[i + 1]))
    && var z := p[|p| - 1]; g.Has(z) && g.At(z).enabled && Leaf(kind, g.At(z))
  }

  /** A path of at most `k` connections from `nid`. */
  ghost predicate PathFrom(g: Graph, kind: PathKind, nid: nat, k: nat, p: seq<nat>) {
    IsPath(g, kind, p) && p[0] == nid && |p| <= k + 1
  }

  lemma {:induction false} ReachGivesPath(g: Graph, kind: PathKind, nid: nat, k: nat) returns (p: seq<nat>)
    requires Reach(g, kind, nid, k)
    ensures PathFrom(g, kind, nid, k, p)
    decreases k
  {
    if Leaf(kind, g.At(nid)) {
      p := [nid];
    } else {
      var conns := g.At(nid).conns;
      var i :| 0 <= i < |conns| && Reach(g, kind, conns[i], k - 1);
      var q := ReachGivesPath(g, kind, conns[i], k - 1);
      p := [nid] + q;
      assert forall j :: 0 < j < |p| ==> p[j] == q[j - 1];
    }
  }

  lemma {:induction false} PathGivesOnPath(g: Graph, kind: PathKind, p: seq<nat>, k: nat, i: nat)
    requires IsPath(g, kind, p) && |p| <= k + 1 && i < |p|
    ensures OnPath(g, kind, p[0], k, p[i])
    decreases |p|
  {
    if |p| == 1 {
      assert Reach(g, kind, p[0], k);
    } else {
      assert Step(g, kind, p[0], p[1]);
      var rest := p[1..];
      assert forall j :: 0 <= j < |rest| ==> rest[j] == p[j + 1];
      forall j | 0 <= j < |rest| - 1
        ensures Step(g, kind, rest[j], rest[j + 1])
      {
        var m := j + 1;
        assert Step(g, kind, p[m], p[m + 1]);
      }
      PathGivesOnPath(g, kind, rest, k - 1, if i == 0 then 0 else i - 1);
      var conns := g.At(p[0]).conns;
      var c :| 0 <= c < |conns| && conns[c] == p[1];
      assert Reach(g, kind, conns[c], k - 1);
      if i > 0 {
        assert OnPath(g, kind, conns[c], k - 1, p[i]);
      }
    }
  }

  lemma {:induction false} OnPathGivesPath(g: Graph, kind: PathKind, nid: nat, k: nat, w: nat) returns (p: seq<nat>)
    requires OnPath(g, kind, nid, k, w)
    ensures PathFrom(g, kind, nid, k, p) && w in p
    decreases k
  {
    if w == nid {
      p := ReachGivesPath(g, kind, nid, k);
    } else {
      var conns := g.At(nid).conns;
      var i :| 0 <= i < |conns| && OnPath(g, kind, conns[i], k - 1, w);
      var q := OnPathGivesPath(g, kind, conns[i], k - 1, w);
      p := [nid] + q;
      assert forall j :: 0 < j < |p| ==> p[j] == q[j - 1];
    }
  }

  /** Reach and OnPath mean what they say: there is a path of at most `k` connections, and
      the widgets on it are exactly those that lie on some such path. */
  lemma ReachIffPath(g: Graph, kind: PathKind, nid: nat, k: nat)
    ensures Reach(g, kind, nid, k) <==> exists p :: PathFrom(g, kind, nid, k, p)
  {
    if Reach(g, kind, nid, k) {
      var p := ReachGivesPath(g, kind, nid, k);
    }
    if p :| PathFrom(g, kind, nid, k, p) {
      PathGivesOnPath(g, kind, p, k, 0);
    }
  }

  lemma OnPathIffPath(g: Graph, kind: PathKind, nid: nat, k: nat, w: nat)
    ensures OnPath(g, kind, nid, k, w) <==> exists p :: PathFrom(g, kind, nid, k, p) && w in p
  {
    if OnPath(g, kind, nid, k, w) {
      var p := OnPathGivesPath(g, kind, nid, k, w);
    }
    if p :| PathFrom(g, kind, nid, k, p) && w in p {
      var i :| 0 <= i < |p| && p[i] == w;
      PathGivesOnPath(g, kind, p, k, i);
    }
  }
}
