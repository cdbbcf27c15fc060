/** What a call of AdvanceCurrentPosition will come to, read off the list before the call: how
    many bytes it takes to play a header out for good, which headers go back to the client, and
    which loops are counted down. */
module WaveCost {
  import opened WaveModel
  import opened WaveStream
  import opened WaveWalk

  // ---------------------------------------------------------------------------
  // Bytes to play
  // ---------------------------------------------------------------------------

  /** What the present passes of the headers from `lo` up to `hi` still take. */
  function Left(hdrs: seq<Hdr>, lo: nat, hi: nat): nat
    requires hi <= |hdrs|
    decreases hi - lo
  {
    if lo >= hi then 0 else PassLeft(hdrs[lo]) + Left(hdrs, lo + 1, hi)
  }

  /** What one more pass over the loop that begins at `i` takes.  Its first header is played
      from its start again; the others go on where they were left. */
  function Again(hdrs: seq<Hdr>, i: nat): nat
    requires i < |hdrs|
  {
    |hdrs[i].data| + Left(hdrs, i + 1, LoopEnd(hdrs, i) + 1)
  }

  function Times(a: int, b: int): (r: int)
    ensures 0 <= a && 0 <= b ==> 0 <= r
    ensures a == 0 ==> r == 0
    ensures a == 1 ==> r == b
  {
    a * b
  }

  /** What it takes to play header `i` out for good, once playing stands at it. */
  function Cost(hdrs: seq<Hdr>, i: nat): nat
    requires i < |hdrs|
  {
    PassLeft(hdrs[i])
    + if hdrs[i].begin && 1 < hdrs[i].loops then Times(hdrs[i].loops - 1, Again(hdrs, i)) else 0
  }

  function Sum(hdrs: seq<Hdr>, lo: nat, hi: nat): nat
    requires hi <= |hdrs|
    decreases hi - lo
  {
    if lo >= hi then 0 else Cost(hdrs, lo) + Sum(hdrs, lo + 1, hi)
  }

  /** The loop that begins at `i` will not be played out as things stand: it is endless, or no
      header ends it. */
  predicate Endless(hdrs: seq<Hdr>, i: nat)
    requires i < |hdrs|
  {
    hdrs[i].begin && 1 < hdrs[i].loops && (hdrs[i].loops == INFINITE || !hdrs[LoopEnd(hdrs, i)].end)
  }

  /** The first such header from `i` on; the end of the list if there is none. */
  function FirstEndless(hdrs: seq<Hdr>, i: nat): (r: nat)
    requires i <= |hdrs|
    ensures i <= r <= |hdrs| && (r < |hdrs| ==> Endless(hdrs, r))
    decreases |hdrs| - i
  {
    if i == |hdrs| || Endless(hdrs, i) then i else FirstEndless(hdrs, i + 1)
  }

  lemma {:induction false} SumSplits(hdrs: seq<Hdr>, lo: nat, mid: nat, hi: nat)
    requires lo <= mid <= hi <= |hdrs|
    ensures Sum(hdrs, lo, hi) == Sum(hdrs, lo, mid) + Sum(hdrs, mid, hi)
    decreases mid - lo
  {
    if lo < mid {
      SumSplits(hdrs, lo + 1, mid, hi);
    }
  }

  // ---------------------------------------------------------------------------
  // All of it depends on the headers from there on alone
  // ---------------------------------------------------------------------------

  ghost predicate SameFrom(hdrs: seq<Hdr>, hdrs': seq<Hdr>, lo: nat) {
    |hdrs'| == |hdrs| && forall i :: lo <= i < |hdrs| ==> hdrs'[i] == hdrs[i]
  }

  lemma SameLoopEnd(hdrs: seq<Hdr>, hdrs': seq<Hdr>, i: nat)
    requires i < |hdrs| == |hdrs'| && forall j :: i <= j < |hdrs| ==> hdrs'[j].end == hdrs[j].end
    ensures LoopEnd(hdrs', i) == LoopEnd(hdrs, i)
  {
    LoopEndIs(hdrs', i, LoopEnd(hdrs, i));
  }

  lemma {:induction false} LeftSame(hdrs: seq<Hdr>, hdrs': seq<Hdr>, lo: nat, hi: nat)
    requires SameFrom(hdrs, hdrs', lo) && hi <= |hdrs|
    ensures Left(hdrs', lo, hi) == Left(hdrs, lo, hi)
    decreases hi - lo
  {
    if lo < hi {
      LeftSame(hdrs, hdrs', lo + 1, hi);
    }
  }

  lemma CostSame(hdrs: seq<Hdr>, hdrs': seq<Hdr>, i: nat)
    requires SameFrom(hdrs, hdrs', i) && i < |hdrs|
    ensures Cost(hdrs', i) == Cost(hdrs, i) && Endless(hdrs', i) == Endless(hdrs, i)
  {
    SameLoopEnd(hdrs, hdrs', i);
    LeftSame(hdrs, hdrs', i + 1, LoopEnd(hdrs, i) + 1);
  }

  lemma {:induction false} SumSame(hdrs: seq<Hdr>, hdrs': seq<Hdr>, lo: nat, hi: nat)
    requires SameFrom(hdrs, hdrs', lo) && hi <= |hdrs|
    ensures Sum(hdrs', lo, hi) == Sum(hdrs, lo, hi)
    decreases hi - lo
  {
    if lo < hi {
      CostSame(hdrs, hdrs', lo);
      SumSame(hdrs, hdrs', lo + 1, hi);
    }
  }

  lemma {:induction false} FirstSame(hdrs: seq<Hdr>, hdrs': seq<Hdr>, lo: nat)
    requires SameFrom(hdrs, hdrs', lo) && lo <= |hdrs|
    ensures FirstEndless(hdrs', lo) == FirstEndless(hdrs, lo)
    decreases |hdrs| - lo
  {
    if lo < |hdrs| {
      CostSame(hdrs, hdrs', lo);
      FirstSame(hdrs, hdrs', lo + 1);
    }
  }

  // ---------------------------------------------------------------------------
  // One turn
  // ---------------------------------------------------------------------------

  /** What it takes to play out the headers from `f` up to `hi` when playing stands at `p`,
      which is `f` or in the loop that begins there. */
  function Due(hdrs: seq<Hdr>, f: nat, p: nat, hi: nat): int
    requires f <= p && f < hi <= |hdrs|
  {
    if p == f then Sum(hdrs, f, hi)
    else
      Left(hdrs, p, LoopEnd(hdrs, f) + 1) + |hdrs[f].data| + Times(hdrs[f].loops - 2, Again(hdrs, f))
      + Sum(hdrs, f + 1, hi)
  }

  /** What the pass over the loop at `f` still takes when playing stands at `p`. */
  function PassDue(hdrs: seq<Hdr>, f: nat, p: nat): nat
    requires f < |hdrs|
  {
    Left(hdrs, p, LoopEnd(hdrs, f) + 1)
  }

  lemma OneLess(a: int, b: int)
    ensures Times(a - 1, b) == b + Times(a - 2, b)
  {
  }

  /** Playing stands within the loop that begins at the front. */
  lemma FrontWithinLoop(hdrs: seq<Hdr>, f: nat, p: nat)
    requires Front(hdrs, f, p) && f < |hdrs|
    ensures p < |hdrs| ==> p <= LoopEnd(hdrs, f)
    ensures f < p ==> hdrs[f].begin && 1 < hdrs[f].loops <= INFINITE
    ensures f < p == |hdrs| ==> Endless(hdrs, f) && LoopEnd(hdrs, f) == |hdrs| - 1 && !hdrs[|hdrs| - 1].end
  {
    assert ToPlay(hdrs, f, f);
  }

  /** A header is played out for good. */
  ghost predicate PlaysOut(hdrs: seq<Hdr>, p: nat)
    requires p < |hdrs| && -1 <= hdrs[p].loopStart < |hdrs|
  {
    hdrs[p].loopStart == -1 || hdrs[hdrs[p].loopStart].loops == 1
  }

  lemma OutStep(q: Queue, f: nat, p: nat, adv: nat)
    requires PlayedTo(q, f, p) && p < |q.hdrs| && -1 <= q.hdrs[p].loopStart < |q.hdrs|
    requires PassLeft(q.hdrs[p]) <= adv && PlaysOut(q.hdrs, p)
    ensures f == p && !Endless(q.hdrs, f) && Cost(q.hdrs, f) == PassLeft(q.hdrs[f])
    ensures q.hdrs[f].begin ==> q.hdrs[f].loops == 1
    ensures var (s, e, left) := Turn(q, p, adv);
            && e == p + 1 && left == adv - PassLeft(q.hdrs[p]) && PlayedTo(s, p + 1, p + 1)
            && SameFrom(q.hdrs, s.hdrs, p + 1) && s.hdrs[p].done && s.buffered == q.buffered - PassLeft(q.hdrs[p])
  {
    FrontLoop(q.hdrs, f, p);
    MarkIsLoop(q.hdrs, p);
    TurnKeepsPlayed(q, f, p, adv);
  }

  lemma MidStep(q: Queue, f: nat, p: nat, adv: nat)
    requires PlayedTo(q, f, p) && p < |q.hdrs| && -1 <= q.hdrs[p].loopStart < |q.hdrs|
    requires PassLeft(q.hdrs[p]) <= adv && !PlaysOut(q.hdrs, p) && !q.hdrs[p].end
    ensures p <= LoopEnd(q.hdrs, f) && (p == LoopEnd(q.hdrs, f) ==> p + 1 == |q.hdrs|)
    ensures q.hdrs[f].begin && 1 < q.hdrs[f].loops <= INFINITE
    ensures var (s, e, left) := Turn(q, p, adv);
            && e == p + 1 && left == adv - PassLeft(q.hdrs[p]) && PlayedTo(s, f, p + 1)
            && s.hdrs == q.hdrs && s.buffered == q.buffered - PassLeft(q.hdrs[p])
  {
    FrontLoop(q.hdrs, f, p);
    MarkIsLoop(q.hdrs, p);
    assert ToPlay(q.hdrs, f, p) && ToPlay(q.hdrs, f, f);
    FrontWithinLoop(q.hdrs, f, p);
    TurnKeepsPlayed(q, f, p, adv);
  }

  lemma BackStep(q: Queue, f: nat, p: nat, adv: nat)
    requires PlayedTo(q, f, p) && p < |q.hdrs| && -1 <= q.hdrs[p].loopStart < |q.hdrs|
    requires PassLeft(q.hdrs[p]) <= adv && !PlaysOut(q.hdrs, p) && q.hdrs[p].end
    ensures p == LoopEnd(q.hdrs, f) && q.hdrs[f].begin && 1 < q.hdrs[f].loops <= INFINITE
    ensures var (s, e, left) := Turn(q, p, adv);
            && e == f && left == adv - PassLeft(q.hdrs[p]) && PlayedTo(s, f, f)
            && s.hdrs == q.hdrs[f := CountDown(q.hdrs[f]).(recorded := 0)]
            && s.buffered == q.buffered - PassLeft(q.hdrs[p])
  {
    FrontLoop(q.hdrs, f, p);
    MarkIsLoop(q.hdrs, p);
    assert ToPlay(q.hdrs, f, p) && ToPlay(q.hdrs, f, f);
    FrontWithinLoop(q.hdrs, f, p);
    TurnKeepsPlayed(q, f, p, adv);
  }

  /** How the amounts due change with a step within a pass, */
  lemma MidDue(hdrs: seq<Hdr>, f: nat, p: nat, hi: nat)
    requires f < hi <= |hdrs| && f <= p < LoopEnd(hdrs, f) && hdrs[f].begin && 1 < hdrs[f].loops
    ensures Due(hdrs, f, p, hi) == PassLeft(hdrs[p]) + Due(hdrs, f, p + 1, hi)
  {
    hide Times;
    OneLess(hdrs[f].loops, Again(hdrs, f));
  }

  /** and with one back to the start. */
  lemma BackDue(hdrs: seq<Hdr>, hdrs': seq<Hdr>, f: nat, p: nat, hi: nat)
    requires f < |hdrs| && f <= p == LoopEnd(hdrs, f) && f < hi <= |hdrs| && hdrs[p].end
    requires hdrs[f].begin && 1 < hdrs[f].loops < INFINITE && 0 < |hdrs[f].data|
    requires hdrs' == hdrs[f := CountDown(hdrs[f]).(recorded := 0)]
    ensures Due(hdrs, f, p, hi) == PassLeft(hdrs[p]) + Due(hdrs', f, f, hi)
  {
    BackSame(hdrs, hdrs', f, hi);
    BackCost(hdrs', f);
    DueAtEnd(hdrs, f, hi);
    assert Due(hdrs', f, f, hi) == Cost(hdrs', f) + Sum(hdrs', f + 1, hi);
    hide Cost, Sum, Due, Times, Again, PassLeft, LoopEnd, CountDown;
  }

  lemma BackSame(hdrs: seq<Hdr>, hdrs': seq<Hdr>, f: nat, hi: nat)
    requires f < |hdrs| && f < hi <= |hdrs| && 1 < hdrs[f].loops < INFINITE
    requires hdrs' == hdrs[f := CountDown(hdrs[f]).(recorded := 0)]
    ensures Sum(hdrs', f + 1, hi) == Sum(hdrs, f + 1, hi) && Again(hdrs', f) == Again(hdrs, f)
    ensures hdrs'[f] == hdrs[f].(loops := hdrs[f].loops - 1, recorded := 0)
  {
    CountsOne(hdrs[f]);
    SameLoopEnd(hdrs, hdrs', f);
    LeftSame(hdrs, hdrs', f + 1, LoopEnd(hdrs, f) + 1);
    SumSame(hdrs, hdrs', f + 1, hi);
    hide Sum, LoopEnd, Left, CountDown;
  }

  /** What is due at the last header of the pass. */
  lemma DueAtEnd(hdrs: seq<Hdr>, f: nat, hi: nat)
    requires f < |hdrs| && f < hi <= |hdrs| && hdrs[f].begin && 1 < hdrs[f].loops
    ensures var p := LoopEnd(hdrs, f);
            Due(hdrs, f, p, hi) == PassLeft(hdrs[p]) + |hdrs[f].data| + Times(hdrs[f].loops - 2, Again(hdrs, f))
                                   + Sum(hdrs, f + 1, hi)
  {
    var p := LoopEnd(hdrs, f);
    OneLess(hdrs[f].loops, Again(hdrs, f));
    if f == p {
      assert Again(hdrs, f) == |hdrs[f].data|;
      assert Sum(hdrs, f, hi) == Cost(hdrs, f) + Sum(hdrs, f + 1, hi);
    } else {
      assert Left(hdrs, p, p + 1) == PassLeft(hdrs[p]) + Left(hdrs, p + 1, p + 1);
    }
    hide Times, Again, Sum, LoopEnd, PassLeft;
  }

  lemma BackCost(hdrs: seq<Hdr>, f: nat)
    requires f < |hdrs| && hdrs[f].begin && 1 <= hdrs[f].loops && hdrs[f].recorded == 0
    ensures Cost(hdrs, f) == |hdrs[f].data| + Times(hdrs[f].loops - 1, Again(hdrs, f))
  {
  }

  lemma BackEndless(hdrs: seq<Hdr>, hdrs': seq<Hdr>, f: nat)
    requires f < |hdrs| && hdrs[LoopEnd(hdrs, f)].end && hdrs[f].begin && 1 < hdrs[f].loops <= INFINITE
    requires hdrs' == hdrs[f := CountDown(hdrs[f]).(recorded := 0)]
    ensures SameFrom(hdrs, hdrs', f + 1) && hdrs'[f].begin && LoopEnd(hdrs', f) == LoopEnd(hdrs, f)
    ensures hdrs'[f].loops == if hdrs[f].loops == INFINITE then INFINITE else hdrs[f].loops - 1
    ensures Endless(hdrs, f) == Endless(hdrs', f) == (hdrs[f].loops == INFINITE)
    ensures FirstEndless(hdrs', f) == FirstEndless(hdrs, f)
  {
    hide LoopEnd, FirstEndless, CountDown;
    CountsOne(hdrs[f]);
    SameLoopEnd(hdrs, hdrs', f);
    FirstSame(hdrs, hdrs', f + 1);
    FirstStep(hdrs, f);
    FirstStep(hdrs', f);
  }

  lemma CountsOne(h: Hdr)
    requires 1 <= h.loops <= INFINITE
    ensures CountDown(h) == h.(loops := if h.loops == INFINITE then INFINITE else h.loops - 1)
  {
  }

  lemma FirstStep(hdrs: seq<Hdr>, i: nat)
    requires i < |hdrs|
    ensures FirstEndless(hdrs, i) == if Endless(hdrs, i) then i else FirstEndless(hdrs, i + 1)
  {
  }

  /** At least the rest of the present pass over the header played is due. */
  lemma DueAtLeast(hdrs: seq<Hdr>, f: nat, p: nat, hi: nat)
    requires Front(hdrs, f, p) && p < |hdrs| && f < hi <= |hdrs|
    ensures 0 < PassLeft(hdrs[p]) <= Due(hdrs, f, p, hi)
    ensures PassLeft(hdrs[p]) <= PassDue(hdrs, f, p)
  {
    FrontWithinLoop(hdrs, f, p);
    assert ToPlay(hdrs, f, p) && ToPlay(hdrs, f, f);
    hide Front, ToPlay, Again, LoopEnd, Endless, Times;
  }

  // ---------------------------------------------------------------------------
  // A whole walk
  // ---------------------------------------------------------------------------

  lemma PlayedBounds(q: Queue, f: nat, p: nat)
    requires PlayedTo(q, f, p)
    ensures f <= p <= |q.hdrs| && Walkable(q.hdrs)
    ensures forall t: nat | f <= t < |q.hdrs| :: !q.hdrs[t].done
    ensures p < |q.hdrs| ==> -1 <= q.hdrs[p].loopStart < |q.hdrs| && Front(q.hdrs, f, p)
    ensures f < p == |q.hdrs| ==> Endless(q.hdrs, f) && !q.hdrs[LoopEnd(q.hdrs, f)].end
  {
    if f < |q.hdrs| {
      FrontWithinLoop(q.hdrs, f, p);
    }
    forall t: nat | f <= t < |q.hdrs|
      ensures !q.hdrs[t].done
    {
      assert ToPlay(q.hdrs, f, t);
    }
  }

  /** Header `t` is played out for good exactly if no header up to it is in the way and the
      bytes suffice. */
  ghost predicate PlaysThrough(hdrs: seq<Hdr>, f: nat, p: nat, adv: nat, t: nat)
    requires f <= p && f <= t < |hdrs|
  {
    t < FirstEndless(hdrs, f) && Due(hdrs, f, p, t + 1) <= adv
  }

  lemma OutThrough(hdrs: seq<Hdr>, hdrs': seq<Hdr>, f: nat, adv: nat, t: nat)
    requires f <= t < |hdrs| && !Endless(hdrs, f) && Cost(hdrs, f) == PassLeft(hdrs[f]) <= adv
    requires SameFrom(hdrs, hdrs', f + 1)
    ensures t == f ==> PlaysThrough(hdrs, f, f, adv, t)
    ensures f < t ==> (PlaysThrough(hdrs, f, f, adv, t)
                       <==> PlaysThrough(hdrs', f + 1, f + 1, adv - PassLeft(hdrs[f]), t))
  {
    FirstStep(hdrs, f);
    FirstSame(hdrs, hdrs', f + 1);
    SumSame(hdrs, hdrs', f + 1, t + 1);
    assert Sum(hdrs, f, t + 1) == Cost(hdrs, f) + Sum(hdrs, f + 1, t + 1);
    hide Cost, Endless, FirstEndless;
  }

  lemma MidThrough(hdrs: seq<Hdr>, f: nat, p: nat, adv: nat, t: nat)
    requires f <= t < |hdrs| && f <= p <= LoopEnd(hdrs, f) && PassLeft(hdrs[p]) <= adv
    requires hdrs[f].begin && 1 < hdrs[f].loops && (p == LoopEnd(hdrs, f) ==> !hdrs[p].end)
    ensures PlaysThrough(hdrs, f, p, adv, t) <==> PlaysThrough(hdrs, f, p + 1, adv - PassLeft(hdrs[p]), t)
  {
    FirstStep(hdrs, f);
    if !Endless(hdrs, f) {
      MidDue(hdrs, f, p, t + 1);
    }
    hide Due, FirstEndless;
  }

  lemma BackThrough(hdrs: seq<Hdr>, hdrs': seq<Hdr>, f: nat, p: nat, adv: nat, t: nat)
    requires f <= t < |hdrs| && f <= p == LoopEnd(hdrs, f) && PassLeft(hdrs[p]) <= adv && hdrs[p].end
    requires hdrs[f].begin && 1 < hdrs[f].loops <= INFINITE && 0 < |hdrs[f].data|
    requires hdrs' == hdrs[f := CountDown(hdrs[f]).(recorded := 0)]
    ensures PlaysThrough(hdrs, f, p, adv, t) <==> PlaysThrough(hdrs', f, f, adv - PassLeft(hdrs[p]), t)
  {
    BackEndless(hdrs, hdrs', f);
    FirstStep(hdrs, f);
    if hdrs[f].loops < INFINITE {
      BackDue(hdrs, hdrs', f, p, t + 1);
    }
    hide Due, FirstEndless, Endless, LoopEnd;
  }

  lemma StaysDone(q: Queue, f: nat, p: nat, adv: nat, t: nat)
    requires PlayedTo(q, f, p) && t < f
    ensures p <= |q.hdrs| && |Walk(q, p, adv).0.hdrs| == |q.hdrs| && t < |q.hdrs| && Walk(q, p, adv).0.hdrs[t].done
  {
    hide Walk;
    var e := WalkKeepsPlayed(q, f, p, adv);
  }

  /** A walk with nothing to do, and one with a turn to take. */
  lemma WalkStops(q: Queue, f: nat, p: nat, adv: nat)
    requires PlayedTo(q, f, p) && (p == |q.hdrs| || adv == 0)
    ensures f <= p <= |q.hdrs| && Walkable(q.hdrs) && Walk(q, p, adv) == (q, p)
  {
  }

  lemma WalkTurns(q: Queue, f: nat, p: nat, adv: nat)
    requires PlayedTo(q, f, p) && p < |q.hdrs| && 0 < adv
    ensures f <= p && Walkable(q.hdrs) && -1 <= q.hdrs[p].loopStart < |q.hdrs|
    ensures var (s, e, left) := Turn(q, p, adv);
            && Walkable(s.hdrs) && e <= |s.hdrs| == |q.hdrs| && Walk(q, p, adv) == Walk(s, e, left)
            && (left < adv || (left == adv && Idle(s.hdrs, e) < Idle(q.hdrs, p)))
  {
    hide Front, Marks, OpenUncounted, Turn;
    PlayedBounds(q, f, p);
    TurnGoesOn(q, p, adv);
    TurnFrame(q, p, adv);
  }

  lemma {:induction false} WalkPlaysThrough(q: Queue, f: nat, p: nat, adv: nat, t: nat)
    requires PlayedTo(q, f, p) && f <= t < |q.hdrs|
    ensures f <= p <= |q.hdrs| && |Walk(q, p, adv).0.hdrs| == |q.hdrs|
    ensures Walk(q, p, adv).0.hdrs[t].done <==> PlaysThrough(q.hdrs, f, p, adv, t)
    decreases adv, if p <= |q.hdrs| then Idle(q.hdrs, p) else 0
  {
    PlayedBounds(q, f, p);
    hide Front, Turn, Walk, Idle, Marks, OpenUncounted, PlayedTo, PlaysThrough, LoopEnd, Endless, PassLeft,
         Cost, Sum, FirstEndless, SameFrom, CountDown, PlaysOut;
    if p == |q.hdrs| || adv == 0 {
      NotThrough(q, f, p, adv, t);
      WalkStops(q, f, p, adv);
    } else {
      WalkTurns(q, f, p, adv);
      var (s, e, left) := Turn(q, p, adv);
      if PassLeft(q.hdrs[p]) > adv {
        NotThrough(q, f, p, adv, t);
        PartTurn(q, f, p, adv);
        PlayedBounds(s, f, p);
        WalkStops(s, f, p, 0);
      } else if PlaysOut(q.hdrs, p) {
        OutStep(q, f, p, adv);
        OutThrough(q.hdrs, s.hdrs, f, adv, t);
        if t == f {
          StaysDone(s, e, e, left, t);
        } else {
          WalkPlaysThrough(s, e, e, left, t);
        }
      } else if !q.hdrs[p].end {
        MidStep(q, f, p, adv);
        MidThrough(q.hdrs, f, p, adv, t);
        WalkPlaysThrough(s, f, e, left, t);
      } else {
        BackStep(q, f, p, adv);
        BackThrough(q.hdrs, s.hdrs, f, p, adv, t);
        WalkPlaysThrough(s, f, f, left, t);
      }
    }
  }

  lemma PartTurn(q: Queue, f: nat, p: nat, adv: nat)
    requires PlayedTo(q, f, p) && p < |q.hdrs| && -1 <= q.hdrs[p].loopStart < |q.hdrs| && PassLeft(q.hdrs[p]) > adv
    ensures var (s, e, left) := Turn(q, p, adv);
            && e == p && left == 0 && PlayedTo(s, f, p) && s.buffered == q.buffered - adv
            && |s.hdrs| == |q.hdrs| && forall i :: 0 <= i < |q.hdrs| ==> s.hdrs[i].loops == q.hdrs[i].loops
  {
    TurnKeepsPlayed(q, f, p, adv);
  }

  lemma NotThrough(q: Queue, f: nat, p: nat, adv: nat, t: nat)
    requires PlayedTo(q, f, p) && f <= t < |q.hdrs| && f <= p <= |q.hdrs|
    requires p == |q.hdrs| || adv == 0 || PassLeft(q.hdrs[p]) > adv
    ensures !PlaysThrough(q.hdrs, f, p, adv, t)
  {
    PlayedBounds(q, f, p);
    FirstStep(q.hdrs, f);
    if p < |q.hdrs| {
      DueAtLeast(q.hdrs, f, p, t + 1);
    }
  }

  // ---------------------------------------------------------------------------
  // To the end of a pass
  // ---------------------------------------------------------------------------

  /** What it takes to come to the end of the present pass over the loop at `t`. */
  function ToPassEnd(hdrs: seq<Hdr>, f: nat, p: nat, t: nat): int
    requires f <= p && f <= t < |hdrs|
  {
    if t == f then PassDue(hdrs, f, p) else Due(hdrs, f, p, t) + PassDue(hdrs, t, t)
  }

  lemma PassDueSame(hdrs: seq<Hdr>, hdrs': seq<Hdr>, t: nat)
    requires SameFrom(hdrs, hdrs', t) && t < |hdrs|
    ensures PassDue(hdrs', t, t) == PassDue(hdrs, t, t) && LoopEnd(hdrs', t) == LoopEnd(hdrs, t)
  {
    SameLoopEnd(hdrs, hdrs', t);
    LeftSame(hdrs, hdrs', t, LoopEnd(hdrs, t) + 1);
  }

  lemma OutPassEnd(hdrs: seq<Hdr>, hdrs': seq<Hdr>, f: nat, t: nat)
    requires f < t < |hdrs| && Cost(hdrs, f) == PassLeft(hdrs[f]) && SameFrom(hdrs, hdrs', f + 1)
    ensures ToPassEnd(hdrs, f, f, t) == PassLeft(hdrs[f]) + ToPassEnd(hdrs', f + 1, f + 1, t)
    ensures LoopEnd(hdrs', t) == LoopEnd(hdrs, t)
  {
    PassDueSame(hdrs, hdrs', t);
    SumSame(hdrs, hdrs', f + 1, t);
    assert Sum(hdrs, f, t) == Cost(hdrs, f) + Sum(hdrs, f + 1, t);
    hide Cost, LoopEnd, PassDue;
  }

  lemma MidPassEnd(hdrs: seq<Hdr>, f: nat, p: nat, t: nat)
    requires f <= t < |hdrs| && f <= p <= LoopEnd(hdrs, f) && hdrs[f].begin && 1 < hdrs[f].loops
    requires f < t ==> p < LoopEnd(hdrs, f)
    ensures ToPassEnd(hdrs, f, p, t) == PassLeft(hdrs[p]) + ToPassEnd(hdrs, f, p + 1, t)
  {
    if f < t {
      MidDue(hdrs, f, p, t);
      hide Due, PassDue;
    }
  }

  lemma BackPassEnd(hdrs: seq<Hdr>, hdrs': seq<Hdr>, f: nat, p: nat, t: nat)
    requires f < t < |hdrs| && f <= p == LoopEnd(hdrs, f) && hdrs[p].end
    requires hdrs[f].begin && 1 < hdrs[f].loops < INFINITE && 0 < |hdrs[f].data|
    requires hdrs' == hdrs[f := CountDown(hdrs[f]).(recorded := 0)]
    ensures ToPassEnd(hdrs, f, p, t) == PassLeft(hdrs[p]) + ToPassEnd(hdrs', f, f, t)
    ensures LoopEnd(hdrs', t) == LoopEnd(hdrs, t)
  {
    BackDue(hdrs, hdrs', f, p, t);
    PassDueSame(hdrs, hdrs', t);
    hide Due, PassDue, LoopEnd;
  }

  lemma PassEndAtLeast(hdrs: seq<Hdr>, f: nat, p: nat, t: nat)
    requires Front(hdrs, f, p) && p < |hdrs| && f <= t < |hdrs|
    ensures 0 < PassLeft(hdrs[p]) <= ToPassEnd(hdrs, f, p, t)
  {
    DueAtLeast(hdrs, f, p, if t == f then f + 1 else t);
    hide Due, Front;
  }

  // ---------------------------------------------------------------------------
  // Which loops a walk counts down
  // ---------------------------------------------------------------------------

  lemma TurnLoopsFall(q: Queue, f: nat, p: nat, adv: nat)
    requires PlayedTo(q, f, p) && p < |q.hdrs| && -1 <= q.hdrs[p].loopStart < |q.hdrs|
    ensures |Turn(q, p, adv).0.hdrs| == |q.hdrs|
    ensures forall i :: 0 <= i < |q.hdrs| ==> Turn(q, p, adv).0.hdrs[i].loops <= q.hdrs[i].loops
  {
    FrontLoop(q.hdrs, f, p);
    assert ToPlay(q.hdrs, f, p);
    assert f < |q.hdrs| ==> ToPlay(q.hdrs, f, f);
  }

  lemma {:induction false} WalkLoopsFall(q: Queue, f: nat, p: nat, adv: nat, t: nat)
    requires PlayedTo(q, f, p) && t < |q.hdrs|
    ensures p <= |q.hdrs| && |Walk(q, p, adv).0.hdrs| == |q.hdrs|
    ensures Walk(q, p, adv).0.hdrs[t].loops <= q.hdrs[t].loops
    decreases adv, if p <= |q.hdrs| then Idle(q.hdrs, p) else 0
  {
    PlayedBounds(q, f, p);
    if p < |q.hdrs| && adv > 0 {
      hide Front, Turn, Marks, OpenUncounted, PlayedTo;
      TurnKeepsPlayed(q, f, p, adv);
      TurnGoesOn(q, p, adv);
      TurnLoopsFall(q, f, p, adv);
      var (s, e, left) := Turn(q, p, adv);
      WalkLoopsFall(s, FrontNext(q.hdrs, f, p, adv), e, left, t);
    }
  }

  /** The walk comes to the end of a pass over the loop at `t`. */
  ghost predicate EndsPass(hdrs: seq<Hdr>, f: nat, p: nat, adv: nat, t: nat)
    requires f <= p && f <= t < |hdrs|
  {
    hdrs[LoopEnd(hdrs, t)].end && t <= FirstEndless(hdrs, f) && ToPassEnd(hdrs, f, p, t) <= adv
  }

  lemma OutEndsPass(hdrs: seq<Hdr>, hdrs': seq<Hdr>, f: nat, adv: nat, t: nat)
    requires f < t < |hdrs| && !Endless(hdrs, f) && Cost(hdrs, f) == PassLeft(hdrs[f]) <= adv
    requires SameFrom(hdrs, hdrs', f + 1)
    ensures EndsPass(hdrs, f, f, adv, t) <==> EndsPass(hdrs', f + 1, f + 1, adv - PassLeft(hdrs[f]), t)
  {
    FirstStep(hdrs, f);
    FirstSame(hdrs, hdrs', f + 1);
    OutPassEnd(hdrs, hdrs', f, t);
    hide Cost, Endless, FirstEndless, ToPassEnd, LoopEnd;
  }

  lemma MidEndsPass(hdrs: seq<Hdr>, f: nat, p: nat, adv: nat, t: nat)
    requires f <= t < |hdrs| && f <= p <= LoopEnd(hdrs, f) && PassLeft(hdrs[p]) <= adv
    requires hdrs[f].begin && 1 < hdrs[f].loops && (p == LoopEnd(hdrs, f) ==> !hdrs[p].end)
    ensures EndsPass(hdrs, f, p, adv, t) <==> EndsPass(hdrs, f, p + 1, adv - PassLeft(hdrs[p]), t)
  {
    FirstStep(hdrs, f);
    if f == t || !Endless(hdrs, f) {
      MidPassEnd(hdrs, f, p, t);
    }
    hide ToPassEnd, FirstEndless;
  }

  lemma BackEndsPass(hdrs: seq<Hdr>, hdrs': seq<Hdr>, f: nat, p: nat, adv: nat, t: nat)
    requires f <= t < |hdrs| && f <= p == LoopEnd(hdrs, f) && PassLeft(hdrs[p]) <= adv && hdrs[p].end
    requires hdrs[f].begin && 1 < hdrs[f].loops <= INFINITE && 0 < |hdrs[f].data|
    requires hdrs' == hdrs[f := CountDown(hdrs[f]).(recorded := 0)]
    ensures f < t ==> (EndsPass(hdrs, f, p, adv, t) <==> EndsPass(hdrs', f, f, adv - PassLeft(hdrs[p]), t))
    ensures t == f ==> EndsPass(hdrs, f, p, adv, t)
  {
    BackEndless(hdrs, hdrs', f);
    FirstStep(hdrs, f);
    assert Left(hdrs, p, p + 1) == PassLeft(hdrs[p]) + Left(hdrs, p + 1, p + 1);
    if f < t && hdrs[f].loops < INFINITE {
      BackPassEnd(hdrs, hdrs', f, p, t);
      hide ToPassEnd, FirstEndless, Endless, LoopEnd;
    }
  }

  lemma NotEndsPass(q: Queue, f: nat, p: nat, adv: nat, t: nat)
    requires PlayedTo(q, f, p) && f <= t < |q.hdrs| && f <= p <= |q.hdrs|
    requires p == |q.hdrs| || adv == 0 || PassLeft(q.hdrs[p]) > adv
    ensures !EndsPass(q.hdrs, f, p, adv, t)
  {
    PlayedBounds(q, f, p);
    FirstStep(q.hdrs, f);
    if p < |q.hdrs| {
      PassEndAtLeast(q.hdrs, f, p, t);
    }
  }

  /** A turn that finishes a header: it counts the pass over `t`, or leaves the question open. */
  lemma TurnEndsPass(q: Queue, f: nat, p: nat, adv: nat, t: nat) returns (f': nat)
    requires PlayedTo(q, f, p) && f <= t < |q.hdrs| && q.hdrs[t].begin && 1 < q.hdrs[t].loops < INFINITE
    requires f <= p < |q.hdrs| && -1 <= q.hdrs[p].loopStart < |q.hdrs| && PassLeft(q.hdrs[p]) <= adv
    ensures var (s, e, left) := Turn(q, p, adv);
            && PlayedTo(s, f', e) && f' <= t && f' <= e && |s.hdrs| == |q.hdrs|
            && if s.hdrs[t].loops < q.hdrs[t].loops then EndsPass(q.hdrs, f, p, adv, t)
               else s.hdrs[t].loops == q.hdrs[t].loops && s.hdrs[t].begin
                    && (EndsPass(q.hdrs, f, p, adv, t) <==> EndsPass(s.hdrs, f', e, left, t))
  {
    PlayedBounds(q, f, p);
    hide Front, Turn, Marks, OpenUncounted, PlayedTo, EndsPass, LoopEnd, Endless, PassLeft, Cost;
    hide FirstEndless, PlaysOut;
    var s := Turn(q, p, adv).0;
    f' := f;
    if PlaysOut(q.hdrs, p) {
      OutStep(q, f, p, adv);
      OutEndsPass(q.hdrs, s.hdrs, f, adv, t);
      f' := p + 1;
    } else if !q.hdrs[p].end {
      MidStep(q, f, p, adv);
      MidEndsPass(q.hdrs, f, p, adv, t);
    } else {
      BackStep(q, f, p, adv);
      BackEndsPass(q.hdrs, s.hdrs, f, p, adv, t);
    }
  }

  /** A loop with passes to go is counted down exactly if the walk ends a pass over it. */
  lemma {:induction false} WalkCountsDown(q: Queue, f: nat, p: nat, adv: nat, t: nat)
    requires PlayedTo(q, f, p) && f <= t < |q.hdrs| && q.hdrs[t].begin && 1 < q.hdrs[t].loops < INFINITE
    ensures f <= p <= |q.hdrs| && |Walk(q, p, adv).0.hdrs| == |q.hdrs|
    ensures Walk(q, p, adv).0.hdrs[t].loops != q.hdrs[t].loops <==> EndsPass(q.hdrs, f, p, adv, t)
    decreases adv, if p <= |q.hdrs| then Idle(q.hdrs, p) else 0
  {
    PlayedBounds(q, f, p);
    hide Front, Turn, Walk, Idle, Marks, OpenUncounted, PlayedTo, EndsPass, LoopEnd, Endless, PassLeft, Walkable;
    if p == |q.hdrs| || adv == 0 {
      NotEndsPass(q, f, p, adv, t);
      WalkStops(q, f, p, adv);
    } else {
      WalkTurns(q, f, p, adv);
      var (s, e, left) := Turn(q, p, adv);
      if PassLeft(q.hdrs[p]) > adv {
        NotEndsPass(q, f, p, adv, t);
        PartTurn(q, f, p, adv);
        WalkStops(s, f, p, 0);
      } else {
        var f' := TurnEndsPass(q, f, p, adv, t);
        WalkLoopsFall(s, f', e, left, t);
        if s.hdrs[t].loops == q.hdrs[t].loops {
          WalkCountsDown(s, f', e, left, t);
        }
      }
    }
  }

  /** Other headers keep their count while they are not played out. */
  lemma {:induction false} WalkKeepsCount(q: Queue, f: nat, p: nat, adv: nat, t: nat)
    requires PlayedTo(q, f, p) && f <= t < |q.hdrs|
    requires !q.hdrs[t].begin || q.hdrs[t].loops == 1 || q.hdrs[t].loops == INFINITE
    ensures p <= |q.hdrs| && |Walk(q, p, adv).0.hdrs| == |q.hdrs|
    ensures Walk(q, p, adv).0.hdrs[t].done || Walk(q, p, adv).0.hdrs[t].loops == q.hdrs[t].loops
    decreases adv, if p <= |q.hdrs| then Idle(q.hdrs, p) else 0
  {
    PlayedBounds(q, f, p);
    hide Front, Turn, Walk, Idle, Marks, OpenUncounted, PlayedTo, LoopEnd, Endless, PassLeft;
    if p < |q.hdrs| && adv > 0 {
      WalkTurns(q, f, p, adv);
      var (s, e, left) := Turn(q, p, adv);
      if PassLeft(q.hdrs[p]) > adv {
        PartTurn(q, f, p, adv);
        WalkStops(s, f, p, 0);
      } else if PlaysOut(q.hdrs, p) {
        OutStep(q, f, p, adv);
        if t == f {
          StaysDone(s, e, e, left, t);
        } else {
          WalkKeepsCount(s, e, e, left, t);
        }
      } else if !q.hdrs[p].end {
        MidStep(q, f, p, adv);
        WalkKeepsCount(s, f, e, left, t);
      } else {
        BackStep(q, f, p, adv);
        WalkKeepsCount(s, f, f, left, t);
      }
    } else {
      WalkStops(q, f, p, adv);
    }
  }

  // ---------------------------------------------------------------------------
  // How many bytes a walk can count
  // ---------------------------------------------------------------------------

  /** The list has `adv` bytes to play: no open loop with passes to go, whose end the walk
      takes for the end of all, is in the way. */
  ghost predicate Takes(hdrs: seq<Hdr>, f: nat, p: nat, adv: nat)
    requires f <= p <= |hdrs|
  {
    var o := FirstEndless(hdrs, f);
    if o == |hdrs| then adv <= if f == |hdrs| then 0 else Due(hdrs, f, p, |hdrs|)
    else hdrs[LoopEnd(hdrs, o)].end || adv <= ToPassEnd(hdrs, f, p, o)
  }

  lemma OutTakes(hdrs: seq<Hdr>, hdrs': seq<Hdr>, f: nat, adv: nat)
    requires f < |hdrs| && !Endless(hdrs, f) && Cost(hdrs, f) == PassLeft(hdrs[f]) <= adv
    requires SameFrom(hdrs, hdrs', f + 1)
    ensures Takes(hdrs, f, f, adv) <==> Takes(hdrs', f + 1, f + 1, adv - PassLeft(hdrs[f]))
  {
    FirstStep(hdrs, f);
    FirstSame(hdrs, hdrs', f + 1);
    var o := FirstEndless(hdrs, f);
    if o < |hdrs| {
      OutPassEnd(hdrs, hdrs', f, o);
    } else {
      SumSame(hdrs, hdrs', f + 1, |hdrs|);
      assert Sum(hdrs, f, |hdrs|) == Cost(hdrs, f) + Sum(hdrs, f + 1, |hdrs|);
    }
    hide Cost, Endless, FirstEndless, ToPassEnd, LoopEnd;
  }

  lemma MidTakes(hdrs: seq<Hdr>, f: nat, p: nat, adv: nat)
    requires f < |hdrs| && f <= p <= LoopEnd(hdrs, f) && PassLeft(hdrs[p]) <= adv
    requires hdrs[f].begin && 1 < hdrs[f].loops && (p == LoopEnd(hdrs, f) ==> !hdrs[p].end)
    ensures Takes(hdrs, f, p, adv) <==> Takes(hdrs, f, p + 1, adv - PassLeft(hdrs[p]))
  {
    FirstStep(hdrs, f);
    var o := FirstEndless(hdrs, f);
    if o < |hdrs| {
      MidPassEnd(hdrs, f, p, o);
    } else {
      MidDue(hdrs, f, p, |hdrs|);
    }
    hide ToPassEnd, FirstEndless, Due;
  }

  lemma BackTakes(hdrs: seq<Hdr>, hdrs': seq<Hdr>, f: nat, p: nat, adv: nat)
    requires f < |hdrs| && f <= p == LoopEnd(hdrs, f) && PassLeft(hdrs[p]) <= adv && hdrs[p].end
    requires hdrs[f].begin && 1 < hdrs[f].loops <= INFINITE && 0 < |hdrs[f].data|
    requires hdrs' == hdrs[f := CountDown(hdrs[f]).(recorded := 0)]
    ensures Takes(hdrs, f, p, adv) <==> Takes(hdrs', f, f, adv - PassLeft(hdrs[p]))
  {
    BackEndless(hdrs, hdrs', f);
    FirstStep(hdrs, f);
    var o := FirstEndless(hdrs, f);
    if hdrs[f].loops < INFINITE {
      if o < |hdrs| {
        BackPassEnd(hdrs, hdrs', f, p, o);
      } else {
        BackDue(hdrs, hdrs', f, p, |hdrs|);
      }
    }
    hide ToPassEnd, FirstEndless, Endless, LoopEnd, Due;
  }

  lemma TakesAtEnd(q: Queue, f: nat, p: nat, adv: nat)
    requires PlayedTo(q, f, p) && f <= p <= |q.hdrs|
    ensures p == |q.hdrs| ==> (Takes(q.hdrs, f, p, adv) <==> adv == 0)
    ensures p < |q.hdrs| && adv <= PassLeft(q.hdrs[p]) ==> Takes(q.hdrs, f, p, adv)
  {
    PlayedBounds(q, f, p);
    if p < |q.hdrs| {
      var o := FirstEndless(q.hdrs, f);
      if o < |q.hdrs| {
        PassEndAtLeast(q.hdrs, f, p, o);
      } else {
        DueAtLeast(q.hdrs, f, p, |q.hdrs|);
      }
      hide Due, ToPassEnd, FirstEndless;
    } else if f < |q.hdrs| {
      FirstStep(q.hdrs, f);
    }
  }

  lemma TurnTakes(q: Queue, f: nat, p: nat, adv: nat) returns (f': nat)
    requires PlayedTo(q, f, p)
    requires f <= p < |q.hdrs| && -1 <= q.hdrs[p].loopStart < |q.hdrs| && PassLeft(q.hdrs[p]) <= adv
    ensures var (s, e, left) := Turn(q, p, adv);
            && PlayedTo(s, f', e) && f' <= e <= |s.hdrs| && s.buffered == q.buffered - (adv - left)
            && (Takes(q.hdrs, f, p, adv) <==> Takes(s.hdrs, f', e, left))
  {
    PlayedBounds(q, f, p);
    hide Front, Turn, Marks, OpenUncounted, PlayedTo, Takes, LoopEnd, Endless, PassLeft, Cost, FirstEndless, PlaysOut;
    var s := Turn(q, p, adv).0;
    f' := f;
    if PlaysOut(q.hdrs, p) {
      OutStep(q, f, p, adv);
      OutTakes(q.hdrs, s.hdrs, f, adv);
      f' := p + 1;
    } else if !q.hdrs[p].end {
      MidStep(q, f, p, adv);
      MidTakes(q.hdrs, f, p, adv);
    } else {
      BackStep(q, f, p, adv);
      BackTakes(q.hdrs, s.hdrs, f, p, adv);
    }
  }

  lemma {:induction false} WalkTakes(q: Queue, f: nat, p: nat, adv: nat)
    requires PlayedTo(q, f, p)
    ensures f <= p <= |q.hdrs|
    ensures Walk(q, p, adv).0.buffered == q.buffered - adv <==> Takes(q.hdrs, f, p, adv)
    decreases adv, if p <= |q.hdrs| then Idle(q.hdrs, p) else 0
  {
    PlayedBounds(q, f, p);
    TakesAtEnd(q, f, p, adv);
    hide Front, Turn, Walk, Idle, Marks, OpenUncounted, PlayedTo, Takes, LoopEnd, Endless, PassLeft, Walkable;
    if p < |q.hdrs| && adv > 0 {
      WalkTurns(q, f, p, adv);
      var (s, e, left) := Turn(q, p, adv);
      if PassLeft(q.hdrs[p]) > adv {
        PartTurn(q, f, p, adv);
        WalkStops(s, f, p, 0);
      } else {
        var f' := TurnTakes(q, f, p, adv);
        WalkTakes(s, f', e, left);
      }
    } else {
      WalkStops(q, f, p, adv);
    }
  }

  // ---------------------------------------------------------------------------
  // A call
  // ---------------------------------------------------------------------------

  /** A call is a walk, after which the headers played out at the head are gone. */
  lemma AdvanceWalks(q: Queue, adv: nat)
    requires Shape(q) && Ready(q)
    ensures Walkable(q.hdrs) && q.head <= |q.hdrs| && PlayedTo(q, q.head, q.head)
    ensures var r, w := Advance(q, adv), Walk(q, q.head, Min(adv, q.buffered)).0;
            && |w.hdrs| == |q.hdrs| && r == w.(head := r.head) && q.head <= r.head <= |q.hdrs|
            && forall t: nat | q.head <= t < |q.hdrs| :: t < r.head <==> w.hdrs[t].done
  {
    ShapePlayed(q);
    hide Front, Marks, OpenUncounted, AllPlayable, LoopsAhead;
    var n := Min(adv, q.buffered);
    var e := WalkKeepsPlayed(q, q.head, q.head, n);
    var (w, p) := Walk(q, q.head, n);
    PlayedDone(w, e, p);
    RemoveDoneStops(w, e);
    PlayedBounds(w, e, p);
    forall t: nat | q.head <= t < e
      ensures w.hdrs[t].done
    {
    }
  }

  /** Header `t` goes back to the client exactly if no header up to it is endless and the bytes
      to be counted suffice to play all of them out, all passes made. */
  lemma HandsBackIff(q: Queue, adv: nat, t: nat)
    requires Shape(q) && Ready(q) && q.head <= t < |q.hdrs|
    ensures Walkable(q.hdrs)
    ensures t < Advance(q, adv).head
            <==> t < FirstEndless(q.hdrs, q.head) && Sum(q.hdrs, q.head, t + 1) <= Min(adv, q.buffered)
  {
    AdvanceWalks(q, adv);
    hide Advance, Walk, Shape, Ready, PlayedTo;
    WalkPlaysThrough(q, q.head, q.head, Min(adv, q.buffered), t);
  }

  /** The call will not hand back the header being copied, nor any of the loop being copied. */
  predicate Behind(q: Queue, adv: nat) {
    var t := Segment(q);
    q.head <= t < |q.hdrs| && t < FirstEndless(q.hdrs, q.head) ==>
      Min(adv, q.buffered) < Sum(q.hdrs, q.head, t + 1)
  }

  lemma BehindIs(q: Queue, adv: nat)
    requires Shape(q) && Ready(q)
    ensures Walkable(q.hdrs) && q.head <= |q.hdrs|
    ensures Behind(q, adv) <==> Advance(q, adv).head <= Segment(q)
  {
    AdvanceWalks(q, adv);
    var t := Segment(q);
    assert q.head <= t <= |q.hdrs|;
    if t < |q.hdrs| {
      HandsBackIff(q, adv, t);
    }
    hide Advance, Walk, Sum, FirstEndless, Shape, Ready;
  }

  lemma PlayedLoopsAhead(q: Queue, r: Queue)
    requires PlayedTo(r, r.head, r.head) && AllPlayable(q.hdrs) && PlayFrame(q, r.(head := q.head)) &&
             r.head <= Segment(r)
    ensures LoopsAhead(r) && AllPlayable(r.hdrs)
  {
    forall i | Segment(r) <= i < |r.hdrs| && 0 <= i && r.hdrs[i].begin
      ensures 1 <= r.hdrs[i].loops <= INFINITE
    {
      assert ToPlay(r.hdrs, r.head, i);
    }
  }

  /** A call keeps the queue's structure exactly if playing stays behind copying. */
  lemma AdvanceKeepsShapeIff(q: Queue, adv: nat)
    requires Shape(q) && Ready(q)
    ensures Walkable(q.hdrs)
    ensures Shape(Advance(q, adv)) <==> Behind(q, adv)
  {
    AdvanceKeepsReady(q, adv);
    BehindIs(q, adv);
    var r := Advance(q, adv);
    hide Front, Marks, OpenUncounted, Advance, AllPlayable, LoopsAhead, Behind;
    if Behind(q, adv) {
      PlayedLoopsAhead(q, r);
    }
  }

  /** The call will count a pass over the loop that is next to be copied. */
  predicate CountsAhead(q: Queue, adv: nat) {
    var t := q.cur;
    && q.loopStart == -1 && q.head <= t < |q.hdrs| && q.hdrs[t].begin && 1 < q.hdrs[t].loops < INFINITE
    && q.hdrs[LoopEnd(q.hdrs, t)].end && t <= FirstEndless(q.hdrs, q.head)
    && Sum(q.hdrs, q.head, t) + Left(q.hdrs, t, LoopEnd(q.hdrs, t) + 1) <= Min(adv, q.buffered)
  }

  /** What a call does to the count of a header it does not hand back. */
  lemma KeepsCountIff(q: Queue, adv: nat, t: nat)
    requires Shape(q) && Ready(q) && q.head <= t < |q.hdrs|
    ensures Walkable(q.hdrs) && |Advance(q, adv).hdrs| == |q.hdrs|
    ensures Advance(q, adv).head <= t ==>
              (Advance(q, adv).hdrs[t].loops == q.hdrs[t].loops
               <==> !(q.hdrs[t].begin && 1 < q.hdrs[t].loops < INFINITE
                      && EndsPass(q.hdrs, q.head, q.head, Min(adv, q.buffered), t)))
  {
    AdvanceWalks(q, adv);
    var n := Min(adv, q.buffered);
    assert PlayedTo(q, q.head, q.head) && q.hdrs[t].loops >= 0;
    if q.hdrs[t].begin && 1 < q.hdrs[t].loops < INFINITE {
      WalkCountsDown(q, q.head, q.head, n, t);
    } else {
      BeginCounts(q, t);
      WalkKeepsCount(q, q.head, q.head, n, t);
    }
    hide Advance, Walk, Shape, Ready, PlayedTo, EndsPass;
  }

  lemma BeginCounts(q: Queue, t: nat)
    requires Shape(q) && Ready(q) && q.head <= t < |q.hdrs|
    ensures q.hdrs[t].begin ==> 1 <= q.hdrs[t].loops <= INFINITE
  {
    assert ToPlay(q.hdrs, q.head, t);
  }

  /** A pass over a later loop cannot end before the header being copied is played out. */
  lemma EndsPassBehind(hdrs: seq<Hdr>, head: nat, s: nat, n: nat, t: nat)
    requires head <= s < t < |hdrs| && EndsPass(hdrs, head, head, n, t)
    ensures s < FirstEndless(hdrs, head) && Sum(hdrs, head, s + 1) <= n
  {
    SumSplits(hdrs, head, s + 1, t);
  }

  lemma UntouchedIff(q: Queue, adv: nat)
    requires StreamInv(q) && Ready(q) && Behind(q, adv)
    ensures Walkable(q.hdrs) && |Advance(q, adv).hdrs| == |q.hdrs|
    ensures Untouched(Advance(q, adv)) <==> !CountsAhead(q, adv)
  {
    AdvanceKeepsReady(q, adv);
    BehindIs(q, adv);
    var r, n := Advance(q, adv), Min(adv, q.buffered);
    forall i: nat | i < |q.hdrs| && q.hdrs[i].begin && (if q.loopStart == -1 then q.cur else q.loopStart + 1) <= i
      ensures r.hdrs[i].loops == r.hdrs[i].plays <==> !(i == q.cur && CountsAhead(q, adv))
    {
      KeepsCountIff(q, adv, i);
      EndsPassAhead(q, adv, i);
      hide EndsPass, Front, Advance, CountsAhead;
    }
    if CountsAhead(q, adv) {
      assert r.hdrs[q.cur].loops != r.hdrs[q.cur].plays;
    }
  }

  /** While playing stays behind copying only the loop next to be copied can be counted. */
  lemma EndsPassAhead(q: Queue, adv: nat, i: nat)
    requires CursorOk(q) && Behind(q, adv) && i < |q.hdrs| && q.hdrs[i].begin
    requires (if q.loopStart == -1 then q.cur else q.loopStart + 1) <= i
    ensures q.head <= i
    ensures 1 < q.hdrs[i].loops < INFINITE && EndsPass(q.hdrs, q.head, q.head, Min(adv, q.buffered), i)
            <==> i == q.cur && CountsAhead(q, adv)
  {
    var n := Min(adv, q.buffered);
    if Segment(q) < i && EndsPass(q.hdrs, q.head, q.head, n, i) {
      EndsPassBehind(q.hdrs, q.head, Segment(q), n, i);
      assert false;
    }
  }

  /** What has been handed out stays the stream exactly if, besides, no pass over the loop next
      to be copied is counted. */
  lemma AdvanceKeepsStreamIff(q: Queue, adv: nat)
    requires StreamInv(q) && Ready(q)
    ensures Walkable(q.hdrs)
    ensures StreamInv(Advance(q, adv)) <==> Behind(q, adv) && !CountsAhead(q, adv)
    ensures StreamInv(Advance(q, adv)) ==> Pulled(Advance(q, adv)) == Pulled(q)
  {
    AdvanceKeepsReady(q, adv);
    AdvanceKeepsShapeIff(q, adv);
    var r := Advance(q, adv);
    hide Advance, Front, PlayedTo, Behind, CountsAhead;
    if Behind(q, adv) {
      UntouchedIff(q, adv);
      PlayedBaseSame(q, r);
    }
  }

  /** Two queues that differ only in what has been played have handed out the same. */
  lemma PlayedBaseSame(q: Queue, r: Queue)
    requires CursorOk(q) && StreamPart(q) && CursorOk(r) && PlayFrame(q, r.(head := q.head))
    ensures Boundary(r.hdrs, 0, Segment(r)) && InsideLoop(r) && Base(r) == Base(q) && Part(r) == Part(q)
  {
    EndsDecide(q.hdrs, r.hdrs);
    BaseAgrees(q, r);
  }

  /** The list has as many bytes to play as the call is to count. */
  ghost predicate CountsAll(q: Queue, adv: nat) {
    q.head <= |q.hdrs| && 0 <= q.buffered && Takes(q.hdrs, q.head, q.head, Min(adv, q.buffered))
  }

  /** Exactly then all of them are counted. */
  lemma CountsAllIff(q: Queue, adv: nat)
    requires Shape(q) && Ready(q)
    ensures Walkable(q.hdrs) && q.head <= |q.hdrs| && 0 <= q.buffered
    ensures Advance(q, adv).buffered == q.buffered - Min(adv, q.buffered) <==> CountsAll(q, adv)
  {
    AdvanceWalks(q, adv);
    hide Advance, Walk, Shape, Ready, PlayedTo, Takes;
    WalkTakes(q, q.head, q.head, Min(adv, q.buffered));
  }

  // ---------------------------------------------------------------------------
  // Empty and done
  // ---------------------------------------------------------------------------

  /** A call that is to count all that is buffered leaves no header exactly if none is endless
      and what is buffered plays all of them out. */
  lemma LeavesNoneIff(q: Queue, adv: nat)
    requires Shape(q) && Ready(q) && q.head < |q.hdrs| && q.buffered <= adv
    ensures Walkable(q.hdrs)
    ensures Advance(q, adv).head == |q.hdrs|
            <==> FirstEndless(q.hdrs, q.head) == |q.hdrs| && Sum(q.hdrs, q.head, |q.hdrs|) <= q.buffered
  {
    AdvanceWalks(q, adv);
    HandsBackIff(q, adv, |q.hdrs| - 1);
    hide Advance, Sum, FirstEndless;
  }

  /** IsEmpty but not IsDone: nothing buffered or left to hand out, and headers still queued. */
  predicate Stuck(q: Queue) { q.cur == |q.hdrs| && q.buffered <= 0 && q.head < |q.hdrs| }

  /** The call counts the last bytes buffered, with nothing left to hand out, and they are not
      enough to play all headers out. */
  ghost predicate Strands(q: Queue, adv: nat) {
    && q.head < |q.hdrs| && q.cur == |q.hdrs| && 0 < q.buffered <= adv
    && if FirstEndless(q.hdrs, q.head) == |q.hdrs| then q.buffered < Sum(q.hdrs, q.head, |q.hdrs|)
       else CountsAll(q, adv)
  }

  /** Exactly then a queue that was not stuck is stuck. */
  lemma StuckIff(q: Queue, adv: nat)
    requires Shape(q) && Ready(q)
    ensures Walkable(q.hdrs) && q.head <= |q.hdrs|
    ensures Stuck(Advance(q, adv)) <==> Stuck(q) || Strands(q, adv)
  {
    AdvanceKeepsReady(q, adv);
    CountsAllIff(q, adv);
    if q.head < |q.hdrs| && q.buffered <= adv {
      LeavesNoneIff(q, adv);
      if q.buffered > 0 && FirstEndless(q.hdrs, q.head) == |q.hdrs| {
        assert CountsAll(q, adv) <==> q.buffered <= Sum(q.hdrs, q.head, |q.hdrs|);
      }
    }
    hide Sum, FirstEndless, Takes, Front;
  }
}
