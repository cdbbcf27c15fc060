/** AdvanceCurrentPosition for whatever loops are queued: how far each header is counted as
    played, where the walk over the list goes, and which headers go back to the client. */
module WaveWalk {
  import opened WaveModel
  import opened WaveStream

  // ---------------------------------------------------------------------------
  // One turn of the loop
  // ---------------------------------------------------------------------------

  /** How much of the present pass over a header is still unplayed. */
  function PassLeft(h: Hdr): nat {
    if h.recorded < |h.data| then |h.data| - h.recorded else 0
  }

  /** A header that is played out. */
  function Fill(h: Hdr): Hdr {
    h.(recorded := |h.data|, done := true)
  }

  /** One pass fewer to go, in 32 bits. */
  function CountDown(h: Hdr): Hdr {
    if h.loops == INFINITE then h else h.(loops := (h.loops + DWORD_RANGE - 1) % DWORD_RANGE)
  }

  /** Headers have data, and their loops begin no later than they do. */
  ghost predicate Walkable(hdrs: seq<Hdr>) {
    forall i :: 0 <= i < |hdrs| ==> 0 < |hdrs[i].data| && -1 <= hdrs[i].loopStart <= i
  }

  /** Header `p` is played to the end of its pass: it is done unless its loop has more passes
      to go, and a loop's last header counts the pass. */
  function PassDone(hdrs: seq<Hdr>, p: nat): seq<Hdr>
    requires p < |hdrs| && -1 <= hdrs[p].loopStart < |hdrs|
  {
    var s := hdrs[p].loopStart;
    if s == -1 then hdrs[p := Fill(hdrs[p])]
    else
      var filled := if hdrs[s].loops == 1 then hdrs[p := Fill(hdrs[p])] else hdrs;
      if !hdrs[p].end then filled
      else
        var counted := filled[s := CountDown(filled[s])];
        if counted[s].loops == 0 then counted else counted[s := counted[s].(recorded := 0)]
  }

  /** The header playing goes on with: the start of the loop while there are passes to go. */
  function PassNext(hdrs: seq<Hdr>, p: nat): nat
    requires p < |hdrs| && -1 <= hdrs[p].loopStart < |hdrs|
  {
    var s := hdrs[p].loopStart;
    if s == -1 || !hdrs[p].end || CountDown(hdrs[s]).loops == 0 then p + 1 else s
  }

  function Count(q: Queue, n: nat): Queue {
    q.(completed := (q.completed + n) % DWORD_RANGE, buffered := q.buffered - n)
  }

  /** One turn: up to `adv` bytes are played from header `p`.  Returns the new state, the
      header reached and the bytes still to play. */
  function Turn(q: Queue, p: nat, adv: nat): (Queue, nat, nat)
    requires p < |q.hdrs| && -1 <= q.hdrs[p].loopStart < |q.hdrs|
  {
    var h := q.hdrs[p];
    var left := PassLeft(h);
    if left > adv then
      (Count(q.(hdrs := q.hdrs[p := h.(recorded := h.recorded + adv)]), adv), p, 0)
    else
      (Count(q.(hdrs := PassDone(q.hdrs, p)), left), PassNext(q.hdrs, p), adv - left)
  }

  // ---------------------------------------------------------------------------
  // The loop
  // ---------------------------------------------------------------------------

  /** What playing leaves alone. */
  ghost predicate PlayFrame(q: Queue, r: Queue) {
    && r.head == q.head && r.cur == q.cur && r.inCur == q.inCur
    && r.loopStart == q.loopStart && r.loopCount == q.loopCount && r.loopDec == q.loopDec && r.build == q.build
    && r.passes == q.passes
    && |r.hdrs| == |q.hdrs|
    && forall i :: 0 <= i < |q.hdrs| ==> SameMedia(q.hdrs[i], r.hdrs[i]) && r.hdrs[i].loopStart == q.hdrs[i].loopStart
  }

  lemma PlayFrameTransitive(q: Queue, s: Queue, r: Queue)
    requires PlayFrame(q, s) && PlayFrame(s, r)
    ensures PlayFrame(q, r)
  {
  }

  lemma PassDoneFrame(hdrs: seq<Hdr>, p: nat)
    requires p < |hdrs| && -1 <= hdrs[p].loopStart < |hdrs|
    ensures |PassDone(hdrs, p)| == |hdrs|
    ensures forall i :: 0 <= i < |hdrs| ==>
              SameMedia(hdrs[i], PassDone(hdrs, p)[i]) && PassDone(hdrs, p)[i].loopStart == hdrs[i].loopStart
  {
  }

  lemma TurnFrame(q: Queue, p: nat, adv: nat)
    requires Walkable(q.hdrs) && p < |q.hdrs|
    ensures var (r, e, left) := Turn(q, p, adv);
            PlayFrame(q, r) && Walkable(r.hdrs) && e <= |r.hdrs| && left <= adv &&
              r.buffered == q.buffered - (adv - left)
  {
    PassDoneFrame(q.hdrs, p);
  }

  /** How far the walk can go without playing a byte. */
  function Idle(hdrs: seq<Hdr>, p: nat): nat
    requires p <= |hdrs|
  {
    if p < |hdrs| && hdrs[p].recorded == 0 then 0 else 1 + |hdrs| - p
  }

  /** A turn that plays nothing goes on to the next header, or to a header that has all its
      bytes to play. */
  lemma TurnGoesOn(q: Queue, p: nat, adv: nat)
    requires Walkable(q.hdrs) && p < |q.hdrs| && 0 < adv
    ensures var (r, e, left) := Turn(q, p, adv);
            e <= |r.hdrs| && (left < adv || (left == adv && Idle(r.hdrs, e) < Idle(q.hdrs, p)))
  {
    TurnFrame(q, p, adv);
  }

  /** `adv` more bytes are played from header `p` on.  Returns the new state and the header
      reached. */
  ghost function Walk(q: Queue, p: nat, adv: nat): (Queue, nat)
    requires Walkable(q.hdrs) && p <= |q.hdrs|
    decreases adv, Idle(q.hdrs, p)
  {
    if p == |q.hdrs| || adv == 0 then (q, p)
    else
      var (s, e, left) := Turn(q, p, adv);
      TurnFrame(q, p, adv);
      TurnGoesOn(q, p, adv);
      Walk(s, e, left)
  }

  function RemoveDone(q: Queue): Queue
    decreases |q.hdrs| - q.head
  {
    if q.head < |q.hdrs| && q.hdrs[q.head].done then RemoveDone(q.(head := q.head + 1)) else q
  }

  ghost function Advance(q: Queue, adv: nat): Queue
    requires q.head <= |q.hdrs| && Walkable(q.hdrs)
  {
    if q.buffered <= 0 then q else RemoveDone(Walk(q, q.head, Min(adv, q.buffered)).0)
  }

  // ---------------------------------------------------------------------------
  // The headers from the head up to some header are finished, and the rest is not
  // ---------------------------------------------------------------------------

  /** The header is marked done, all its bytes counted. */
  predicate PlayedOut(h: Hdr) { h.done && h.recorded == |h.data| }

  ghost predicate DoneUpTo(q: Queue, p: nat) {
    && q.head <= p <= |q.hdrs|
    && (forall i :: q.head <= i < p ==> PlayedOut(q.hdrs[i]))
    && (p < |q.hdrs| ==> !q.hdrs[p].done)
  }

  lemma DoneBefore(q: Queue, p: nat, i: nat)
    requires DoneUpTo(q, p) && i <= p && i < |q.hdrs| && q.hdrs[i].done
    ensures i < p
  {
  }

  /** RemoveCompleteBlocks hands back exactly the finished headers at the head. */
  lemma {:induction false} RemoveDoneStops(q: Queue, p: nat)
    requires DoneUpTo(q, p)
    ensures RemoveDone(q) == q.(head := p)
    decreases p - q.head
  {
    if q.head < p {
      RemoveDoneStops(q.(head := q.head + 1), p);
    }
  }

  // ---------------------------------------------------------------------------
  // Marks
  // ---------------------------------------------------------------------------

  /** The loop of header `p`: its start begins it, and no header in between ends it. */
  ghost predicate InLoop(hdrs: seq<Hdr>, p: nat)
    requires p < |hdrs|
  {
    var s := hdrs[p].loopStart;
    s == -1 || (0 <= s <= p && hdrs[s].begin && (hdrs[p].begin ==> s == p)
                && forall i :: s <= i < p ==> !hdrs[i].end && hdrs[i].loopStart == s && (hdrs[i].begin ==> i == s))
  }

  lemma MarkIsLoop(hdrs: seq<Hdr>, p: nat)
    requires Marks(hdrs) && p < |hdrs|
    ensures InLoop(hdrs, p) && (hdrs[p].begin ==> hdrs[p].loopStart == p)
    ensures p > 0 && !hdrs[p - 1].end && hdrs[p - 1].loopStart != -1 ==>
              !hdrs[p].begin && hdrs[p].loopStart == hdrs[p - 1].loopStart
  {
    OpenLoopIs(hdrs, p);
    assert MarkAt(hdrs, p);
    if p > 0 {
      assert hdrs[..p][p - 1] == hdrs[p - 1];
    }
  }

  /** From `head` on, the mark of a header or of the open loop, if it is one of those headers,
      is a header that begins a loop, and the last such one. */
  ghost predicate Nest(hdrs: seq<Hdr>, head: nat, build: int) {
    && (forall i, j :: head <= i < j < |hdrs| ==> NestAt(hdrs, i, hdrs[j].loopStart))
    && (forall i :: head <= i < |hdrs| ==> NestAt(hdrs, i, build))
  }

  ghost predicate NestAt(hdrs: seq<Hdr>, i: nat, mark: int)
    requires i < |hdrs|
  {
    (hdrs[i].begin ==> mark == -1 || i <= mark) && (mark == i ==> hdrs[i].begin)
  }

  lemma MarksNest(hdrs: seq<Hdr>, head: nat)
    requires Marks(hdrs)
    ensures Nest(hdrs, head, OpenLoop(hdrs))
  {
    assert hdrs[..|hdrs|] == hdrs;
    OpenLoopIs(hdrs, |hdrs|);
    forall i, j | head <= i < j < |hdrs|
      ensures NestAt(hdrs, i, hdrs[j].loopStart)
    {
      MarkIsLoop(hdrs, j);
      MarkIsLoop(hdrs, i);
    }
  }

  /** It stays so when marks are cleared. */
  lemma NestCleared(hdrs: seq<Hdr>, hdrs': seq<Hdr>, head: nat, build: int)
    requires Nest(hdrs, head, build) && |hdrs'| == |hdrs|
    requires forall i :: 0 <= i < |hdrs| ==>
               hdrs'[i].begin == hdrs[i].begin && (hdrs'[i].loopStart == hdrs[i].loopStart || hdrs'[i].loopStart == -1)
    ensures Nest(hdrs', head, build)
  {
    forall i, j | head <= i < j < |hdrs|
      ensures NestAt(hdrs', i, hdrs'[j].loopStart)
    {
      assert NestAt(hdrs, i, hdrs[j].loopStart);
    }
    forall i | head <= i < |hdrs|
      ensures NestAt(hdrs', i, build)
    {
      assert NestAt(hdrs, i, build);
    }
  }

  lemma MarksWalkable(hdrs: seq<Hdr>)
    requires Marks(hdrs) && AllPlayable(hdrs)
    ensures Walkable(hdrs)
  {
    forall i | 0 <= i < |hdrs|
      ensures -1 <= hdrs[i].loopStart <= i
    {
      MarkIsLoop(hdrs, i);
    }
  }

  lemma MarksFrame(q: Queue, r: Queue)
    requires PlayFrame(q, r) && Marks(q.hdrs) && q.build == OpenLoop(q.hdrs)
    ensures Marks(r.hdrs) && r.build == OpenLoop(r.hdrs)
  {
    forall i: nat | i < |r.hdrs|
      ensures MarkAt(r.hdrs, i)
    {
      assert MarkAt(q.hdrs, i);
      assert i > 0 ==> r.hdrs[..i][i - 1] == r.hdrs[i - 1] && q.hdrs[..i][i - 1] == q.hdrs[i - 1];
    }
  }

  // ---------------------------------------------------------------------------
  // What every walk keeps
  // ---------------------------------------------------------------------------

  /** Header `i` is not played out, where playing of whole loops has got to `f`: its loop has
      passes to go, and just one if its start is played out already. */
  ghost predicate ToPlay(hdrs: seq<Hdr>, f: nat, i: nat)
    requires i < |hdrs|
  {
    var h := hdrs[i];
    && !h.done && h.recorded < |h.data| && (h.begin ==> 1 <= h.loops <= INFINITE)
    && (h.loopStart == -1
        || (0 <= h.loopStart <= i && (h.loopStart < f ==> hdrs[h.loopStart].loops == 1)))
  }

  /** Playing stands at header `p`.  The headers before `f` are played out; those from `f` up
      to `p` belong to a loop with more than one pass to go, which the walk is in. */
  ghost predicate Front(hdrs: seq<Hdr>, f: nat, p: nat) {
    && f <= p <= |hdrs|
    && (forall i :: 0 <= i < f ==> PlayedOut(hdrs[i]))
    && (forall i :: f <= i < |hdrs| ==> ToPlay(hdrs, f, i))
    && (f < p ==> hdrs[f].begin && hdrs[f].loops != 1
                  && forall i :: f <= i < p ==> hdrs[i].loopStart == f && !hdrs[i].end)
  }

  /** Where the played-out headers end after a turn. */
  function FrontNext(hdrs: seq<Hdr>, f: nat, p: nat, adv: nat): nat
    requires p < |hdrs| && -1 <= hdrs[p].loopStart < |hdrs|
  {
    var s := hdrs[p].loopStart;
    if PassLeft(hdrs[p]) <= adv && (s == -1 || hdrs[s].loops == 1) then p + 1 else f
  }

  /** While playing is inside a loop it is the one that starts at `f`. */
  lemma FrontLoop(hdrs: seq<Hdr>, f: nat, p: nat)
    requires Front(hdrs, f, p) && Marks(hdrs) && p < |hdrs|
    ensures InLoop(hdrs, p) && -1 <= hdrs[p].loopStart <= p
    ensures f < p ==> hdrs[p].loopStart == f
    ensures hdrs[p].loopStart == -1 || hdrs[p].loopStart <= f
  {
    MarkIsLoop(hdrs, p);
  }

  /** No header after the last of a loop is in it. */
  lemma LoopEndsHere(hdrs: seq<Hdr>, p: nat, i: nat)
    requires Marks(hdrs) && p < i < |hdrs|
    ensures hdrs[p].end || hdrs[p].loopStart == -1 ==> hdrs[i].loopStart == -1 || p < hdrs[i].loopStart
    ensures hdrs[i].loopStart == p ==> hdrs[p].begin && hdrs[p].loopStart == p
    ensures hdrs[i].loopStart == -1 || hdrs[p].loopStart <= hdrs[i].loopStart
  {
    MarkIsLoop(hdrs, p);
    MarkIsLoop(hdrs, i);
  }

  lemma TurnPartKeepsFront(q: Queue, f: nat, p: nat, adv: nat)
    requires Front(q.hdrs, f, p) && p < |q.hdrs| && -1 <= q.hdrs[p].loopStart < |q.hdrs| && PassLeft(q.hdrs[p]) > adv
    ensures Front(Turn(q, p, adv).0.hdrs, f, p)
  {
    var hdrs := Turn(q, p, adv).0.hdrs;
    forall i | f <= i < |hdrs|
      ensures ToPlay(hdrs, f, i)
    {
      assert ToPlay(q.hdrs, f, i);
    }
  }

  /** A header played out for good. */
  lemma TurnOutKeepsFront(q: Queue, f: nat, p: nat, adv: nat)
    requires Front(q.hdrs, f, p) && Marks(q.hdrs) && p < |q.hdrs| && PassLeft(q.hdrs[p]) <= adv
    requires -1 <= q.hdrs[p].loopStart <= p && (q.hdrs[p].loopStart == -1 || q.hdrs[q.hdrs[p].loopStart].loops == 1)
    ensures var (r, e, left) := Turn(q, p, adv); e == p + 1 && Front(r.hdrs, p + 1, p + 1)
  {
    FrontLoop(q.hdrs, f, p);
    assert f == p;
    var hdrs, n := Turn(q, p, adv).0.hdrs, p + 1;
    forall i | n <= i < |hdrs|
      ensures ToPlay(hdrs, n, i)
    {
      assert ToPlay(q.hdrs, f, i);
      LoopEndsHere(q.hdrs, p, i);
    }
  }

  /** A pass with more to come. */
  lemma TurnBackKeepsFront(q: Queue, f: nat, p: nat, adv: nat)
    requires Front(q.hdrs, f, p) && Marks(q.hdrs) && p < |q.hdrs| && PassLeft(q.hdrs[p]) <= adv
    requires 0 <= q.hdrs[p].loopStart <= p && q.hdrs[q.hdrs[p].loopStart].loops != 1
    ensures var (r, e, left) := Turn(q, p, adv); Front(r.hdrs, f, e)
  {
    FrontLoop(q.hdrs, f, p);
    assert q.hdrs[p].loopStart == f by { assert ToPlay(q.hdrs, f, p); }
    assert ToPlay(q.hdrs, f, f) && CountDown(q.hdrs[f]).loops != 0;
    var hdrs := Turn(q, p, adv).0.hdrs;
    forall i | f <= i < |hdrs|
      ensures ToPlay(hdrs, f, i)
    {
      assert ToPlay(q.hdrs, f, i);
    }
    if !q.hdrs[p].end {
      assert hdrs == q.hdrs && Turn(q, p, adv).1 == p + 1;
      assert forall i :: f <= i < p + 1 ==> hdrs[i].loopStart == f && !hdrs[i].end;
    }
  }

  lemma TurnKeepsFront(q: Queue, f: nat, p: nat, adv: nat)
    requires Front(q.hdrs, f, p) && Marks(q.hdrs) && p < |q.hdrs|
    ensures -1 <= q.hdrs[p].loopStart <= p
    ensures var (r, e, left) := Turn(q, p, adv);
            f <= FrontNext(q.hdrs, f, p, adv) && Front(r.hdrs, FrontNext(q.hdrs, f, p, adv), e)
  {
    FrontLoop(q.hdrs, f, p);
    if PassLeft(q.hdrs[p]) > adv {
      TurnPartKeepsFront(q, f, p, adv);
    } else if q.hdrs[p].loopStart == -1 || q.hdrs[q.hdrs[p].loopStart].loops == 1 {
      TurnOutKeepsFront(q, f, p, adv);
    } else {
      TurnBackKeepsFront(q, f, p, adv);
    }
  }

  /** A loop nobody has ended still has the count it was queued with, and just one pass to go
      if its start is played out. */
  ghost predicate OpenUncounted(hdrs: seq<Hdr>, build: int, f: nat) {
    build != -1 ==>
      && 0 <= build < |hdrs|
      && hdrs[build].loops == hdrs[build].plays
      && (build < f ==> hdrs[build].loops == 1)
  }

  lemma TurnKeepsOpen(q: Queue, f: nat, p: nat, adv: nat)
    requires Front(q.hdrs, f, p) && Marks(q.hdrs) && p < |q.hdrs|
    requires q.build == OpenLoop(q.hdrs) && OpenUncounted(q.hdrs, q.build, f)
    ensures -1 <= q.hdrs[p].loopStart <= p
    ensures OpenUncounted(Turn(q, p, adv).0.hdrs, q.build, FrontNext(q.hdrs, f, p, adv))
  {
    FrontLoop(q.hdrs, f, p);
    assert q.hdrs[..|q.hdrs|] == q.hdrs;
    OpenLoopIs(q.hdrs, |q.hdrs|);
  }

  /** Where playing stands, and what it leaves of a loop still open. */
  ghost predicate PlayedTo(q: Queue, f: nat, p: nat) {
    && Walkable(q.hdrs) && Marks(q.hdrs) && q.build == OpenLoop(q.hdrs)
    && Front(q.hdrs, f, p) && OpenUncounted(q.hdrs, q.build, f)
  }

  lemma TurnKeepsPlayed(q: Queue, f: nat, p: nat, adv: nat)
    requires PlayedTo(q, f, p) && p < |q.hdrs|
    ensures var (r, e, left) := Turn(q, p, adv);
            && f <= FrontNext(q.hdrs, f, p, adv) && PlayedTo(r, FrontNext(q.hdrs, f, p, adv), e)
            && PlayFrame(q, r) && left <= adv && r.buffered == q.buffered - (adv - left)
  {
    hide Front, Marks, OpenUncounted, Turn;
    TurnFrame(q, p, adv);
    TurnKeepsFront(q, f, p, adv);
    TurnKeepsOpen(q, f, p, adv);
    MarksFrame(q, Turn(q, p, adv).0);
  }

  /** The walk keeps it; `e` is where the played-out headers then end. */
  lemma {:induction false} WalkKeepsPlayed(q: Queue, f: nat, p: nat, adv: nat) returns (e: nat)
    requires PlayedTo(q, f, p)
    ensures p <= |q.hdrs|
    ensures var (r, p2) := Walk(q, p, adv);
            && f <= e && PlayedTo(r, e, p2) && PlayFrame(q, r)
            && q.buffered - adv <= r.buffered <= q.buffered
            && (p2 == |r.hdrs| || r.buffered == q.buffered - adv)
    decreases adv, if p <= |q.hdrs| then Idle(q.hdrs, p) else 0
  {
    e := f;
    if p < |q.hdrs| && adv > 0 {
      hide Front, Turn, Marks, OpenUncounted;
      TurnGoesOn(q, p, adv);
      TurnKeepsPlayed(q, f, p, adv);
      var (s, p1, left) := Turn(q, p, adv);
      e := WalkKeepsPlayed(s, FrontNext(q.hdrs, f, p, adv), p1, left);
      PlayFrameTransitive(q, s, Walk(s, p1, left).0);
    }
  }

  /** What playing keeps, whatever the copying side does. */
  ghost predicate Ready(q: Queue) {
    Front(q.hdrs, q.head, q.head) && OpenUncounted(q.hdrs, q.build, q.head)
  }

  lemma ShapePlayed(q: Queue)
    requires Shape(q) && Ready(q)
    ensures PlayedTo(q, q.head, q.head)
  {
    MarksWalkable(q.hdrs);
  }

  lemma PlayedDone(q: Queue, e: nat, p: nat)
    requires PlayedTo(q, e, p) && q.head <= e
    ensures DoneUpTo(q, e)
  {
    assert e < |q.hdrs| ==> ToPlay(q.hdrs, e, e);
  }

  /** The call as a whole: the headers played out go back to the client, and nothing changes
      for the copying side. */
  lemma AdvanceKeepsReady(q: Queue, adv: nat)
    requires Shape(q) && Ready(q)
    ensures Walkable(q.hdrs)
    ensures var r := Advance(q, adv);
            && PlayedTo(r, r.head, r.head) && Ready(r)
            && q.head <= r.head <= |r.hdrs| && PlayFrame(q, r.(head := q.head))
            && q.buffered - Min(adv, q.buffered) <= r.buffered <= q.buffered
            && r.completed < DWORD_RANGE
  {
    ShapePlayed(q);
    if q.buffered > 0 {
      hide Front, Marks, OpenUncounted, Walk, AllPlayable, LoopsAhead;
      var n := Min(adv, q.buffered);
      var e := WalkKeepsPlayed(q, q.head, q.head, n);
      var (w, p) := Walk(q, q.head, n);
      PlayedDone(w, e, p);
      RemoveDoneStops(w, e);
      FrontRestarts(w.hdrs, e, p);
      WalkCompletes(q, q.head, n);
    }
  }

  lemma FrontRestarts(hdrs: seq<Hdr>, f: nat, p: nat)
    requires Front(hdrs, f, p)
    ensures Front(hdrs, f, f)
  {
  }

  lemma {:induction false} WalkCompletes(q: Queue, p: nat, adv: nat)
    requires Walkable(q.hdrs) && p <= |q.hdrs| && q.completed < DWORD_RANGE
    ensures Walk(q, p, adv).0.completed < DWORD_RANGE
    decreases adv, Idle(q.hdrs, p)
  {
    if p < |q.hdrs| && adv > 0 {
      TurnFrame(q, p, adv);
      TurnGoesOn(q, p, adv);
      var (s, e, left) := Turn(q, p, adv);
      WalkCompletes(s, e, left);
    }
  }

  // ---------------------------------------------------------------------------
  // Part of the way through a call
  // ---------------------------------------------------------------------------

  /** Started at `q0` to play `n` bytes, a call now stands at header `p` of `q` with `adv` bytes
      to go. */
  ghost predicate Underway(q0: Queue, n: nat, q: Queue, f: nat, p: nat, adv: nat) {
    && PlayedTo(q0, q0.head, q0.head) && PlayedTo(q, f, p) && q0.head <= f && PlayFrame(q0, q)
    && q0.head <= p <= |q.hdrs| && q0.head <= |q0.hdrs|
    && Walk(q, p, adv) == Walk(q0, q0.head, n)
  }

  lemma UnderwayAtStart(q: Queue, n: nat)
    requires Shape(q) && Ready(q)
    ensures Underway(q, n, q, q.head, q.head, n)
  {
    ShapePlayed(q);
  }

  lemma TurnUnderway(q0: Queue, n: nat, q: Queue, f: nat, p: nat, adv: nat)
    requires Underway(q0, n, q, f, p, adv) && p < |q.hdrs| && 0 < adv
    ensures -1 <= q.hdrs[p].loopStart <= p
    ensures var (s, e, left) := Turn(q, p, adv);
            && Underway(q0, n, s, FrontNext(q.hdrs, f, p, adv), e, left)
            && (left < adv || (left == adv && Idle(s.hdrs, e) < Idle(q.hdrs, p)))
  {
    hide Marks, OpenUncounted, Turn;
    TurnKeepsPlayed(q, f, p, adv);
    TurnGoesOn(q, p, adv);
    PlayFrameTransitive(q0, q, Turn(q, p, adv).0);
  }

  /** What the loop finds at header `p`. */
  lemma HeaderUnderway(q0: Queue, n: nat, q: Queue, f: nat, p: nat, adv: nat)
    requires Underway(q0, n, q, f, p, adv)
    ensures q.head == q0.head <= p <= |q.hdrs| && q.cur == q0.cur
    ensures Walkable(q0.hdrs) && q0.head <= |q0.hdrs|
    ensures p < |q.hdrs| ==>
              var s := q.hdrs[p].loopStart;
              s == -1 || (0 <= s <= p && (s < q.head ==> q.hdrs[s].loops == 1))
  {
    if p < |q.hdrs| {
      FrontLoop(q.hdrs, f, p);
      assert ToPlay(q.hdrs, f, p);
    }
  }

  /** Where a call will have handed headers back to, it has got to at most. */
  lemma FrontWithin(q0: Queue, n: nat, q: Queue, f: nat, p: nat, adv: nat)
    requires Underway(q0, n, q, f, p, adv)
    ensures q0.head <= f <= RemoveDone(Walk(q0, q0.head, n).0).head
  {
    hide Front, Marks, OpenUncounted, Walk;
    var e := WalkKeepsPlayed(q, f, p, adv);
    var (r, p2) := Walk(q, p, adv);
    PlayedDone(r, e, p2);
    RemoveDoneStops(r, e);
  }

  lemma UnderwayAtEnd(q0: Queue, n: nat, q: Queue, f: nat, p: nat, adv: nat)
    requires Underway(q0, n, q, f, p, adv) && (p == |q.hdrs| || adv == 0)
    ensures q == Walk(q0, q0.head, n).0 && PlayFrame(q0, q) && DoneUpTo(q, f) && RemoveDone(q) == q.(head := f)
  {
    PlayedDone(q, f, p);
    RemoveDoneStops(q, f);
  }

  // ---------------------------------------------------------------------------
  // Queuing and pulling
  // ---------------------------------------------------------------------------

  /** Queuing keeps all of it. */
  lemma AddKeepsAll(q: Queue, data: seq<Byte>, begin: bool, end: bool, loops: nat)
    requires Shape(q) && Ready(q) && CanAdd(q, begin) && Playable(NewHdr(data, begin, end, loops))
    ensures var r := Add(q, data, begin, end, loops); Shape(r) && Ready(r) && Walkable(r.hdrs)
  {
    AddKeepsShape(q, data, begin, end, loops);
    AddKeepsReady(q, data, begin, end, loops);
    ShapePlayed(Add(q, data, begin, end, loops));
  }

  lemma AddKeepsReady(q: Queue, data: seq<Byte>, begin: bool, end: bool, loops: nat)
    requires Shape(q) && Ready(q) && CanAdd(q, begin)
    requires Playable(NewHdr(data, begin, end, loops))
    ensures Ready(Add(q, data, begin, end, loops))
  {
    var r := Add(q, data, begin, end, loops);
    forall i | r.head <= i < |r.hdrs|
      ensures ToPlay(r.hdrs, r.head, i)
    {
      if i < |q.hdrs| {
        assert ToPlay(q.hdrs, q.head, i);
      }
    }
  }

  lemma NextKeepsReady(q: Queue, n: nat)
    requires Ready(q) && q.cur < |q.hdrs| && q.inCur <= |q.hdrs[q.cur].data|
    ensures Ready(Next(q, n).0)
  {
    NextFrame(q, n);
  }
}
