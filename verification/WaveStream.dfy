/** What GetNextBlock hands out, over whole runs: the headers' data in queue order,
    each loop repeated dwLoops times. */
module WaveStream {
  import opened WaveModel

  // ---------------------------------------------------------------------------
  // The stream a list of headers denotes
  // ---------------------------------------------------------------------------

  function Repeat(s: seq<Byte>, n: nat): seq<Byte> {
    if n == 0 then [] else Repeat(s, n - 1) + s
  }

  /** The data of the headers from `lo` up to `hi`. */
  function Data(hdrs: seq<Hdr>, lo: nat, hi: nat): seq<Byte>
    requires hi <= |hdrs|
  {
    if lo >= hi then [] else Data(hdrs, lo, hi - 1) + hdrs[hi - 1].data
  }

  /** The last header of the loop that is open at `i`: the first WHDR_ENDLOOP from
      there on, or the end of the list when there is none. */
  function LoopEnd(hdrs: seq<Hdr>, i: nat): (e: nat)
    requires i < |hdrs|
    ensures i <= e < |hdrs|
    ensures hdrs[e].end || e + 1 == |hdrs|
    ensures forall j :: i <= j < e ==> !hdrs[j].end
    decreases |hdrs| - i
  {
    if hdrs[i].end || i + 1 == |hdrs| then i else LoopEnd(hdrs, i + 1)
  }

  /** A segment is a loop with all its headers, or a header outside any loop. */
  function After(hdrs: seq<Hdr>, i: nat): (n: nat)
    requires i < |hdrs|
    ensures i < n <= |hdrs|
  {
    if hdrs[i].begin then LoopEnd(hdrs, i) + 1 else i + 1
  }

  /** How often header `h`'s loop is to be heard; `k` times if it is endless. */
  function Passes(h: Hdr, k: nat): nat { if h.plays == INFINITE then k else h.plays }

  function SegmentData(hdrs: seq<Hdr>, i: nat, k: nat): seq<Byte>
    requires i < |hdrs|
  {
    if hdrs[i].begin then Repeat(Data(hdrs, i, After(hdrs, i)), Passes(hdrs[i], k)) else hdrs[i].data
  }

  function Expand(hdrs: seq<Hdr>, i: nat, k: nat): seq<Byte>
    decreases |hdrs| - i
  {
    if i >= |hdrs| then [] else SegmentData(hdrs, i, k) + Expand(hdrs, After(hdrs, i), k)
  }

  /** The bytes a client has queued, in the order they are meant to be heard, when endless
      loops are heard `k` times. */
  function Meaning(hdrs: seq<Hdr>, k: nat): seq<Byte> { Expand(hdrs, 0, k) }

  lemma ConcatAssoc(a: seq<Byte>, b: seq<Byte>, c: seq<Byte>)
    ensures a + (b + c) == (a + b) + c
  {
  }

  // ---------------------------------------------------------------------------
  // Segment boundaries
  // ---------------------------------------------------------------------------

  /** `b` is reached from `i` by whole segments, none of them endless. */
  predicate Boundary(hdrs: seq<Hdr>, i: nat, b: nat)
    requires b <= |hdrs|
    decreases |hdrs| - i
  {
    i == b || (i < b && (hdrs[i].begin ==> hdrs[i].plays != INFINITE) && Boundary(hdrs, After(hdrs, i), b))
  }

  /** The data of the segments up to a boundary. */
  function ExpandTo(hdrs: seq<Hdr>, i: nat, b: nat): seq<Byte>
    requires b <= |hdrs|
    decreases |hdrs| - i
  {
    if i >= b then [] else SegmentData(hdrs, i, 0) + ExpandTo(hdrs, After(hdrs, i), b)
  }

  lemma {:induction false} ExpandSplits(hdrs: seq<Hdr>, i: nat, b: nat, k: nat)
    requires b <= |hdrs| && Boundary(hdrs, i, b)
    ensures Expand(hdrs, i, k) == ExpandTo(hdrs, i, b) + Expand(hdrs, b, k)
    decreases |hdrs| - i
  {
    if i < b {
      var n := After(hdrs, i);
      ExpandSplits(hdrs, n, b, k);
      ConcatAssoc(SegmentData(hdrs, i, k), ExpandTo(hdrs, n, b), Expand(hdrs, b, k));
    }
  }

  lemma {:induction false} BoundaryAdvances(hdrs: seq<Hdr>, i: nat, b: nat)
    requires b < |hdrs| && Boundary(hdrs, i, b) && (hdrs[b].begin ==> hdrs[b].plays != INFINITE)
    ensures Boundary(hdrs, i, After(hdrs, b))
    ensures ExpandTo(hdrs, i, After(hdrs, b)) == ExpandTo(hdrs, i, b) + SegmentData(hdrs, b, 0)
    decreases |hdrs| - i
  {
    var n := After(hdrs, b);
    if i < b {
      var m := After(hdrs, i);
      BoundaryAdvances(hdrs, m, b);
      ConcatAssoc(SegmentData(hdrs, i, 0), ExpandTo(hdrs, m, b), SegmentData(hdrs, b, 0));
    } else {
      assert ExpandTo(hdrs, n, n) == [];
    }
  }

  lemma {:induction false} BoundaryMonotone(hdrs: seq<Hdr>, i: nat, b: nat)
    requires b <= |hdrs| && Boundary(hdrs, i, b)
    ensures i <= b
  {
  }

  /** Marks are consistent with boundaries: no loop is open at one, except at the end of the
      list. */
  lemma {:induction false} NoLoopOpenAtBoundary(hdrs: seq<Hdr>, i: nat, b: nat)
    requires Marks(hdrs) && b < |hdrs| && Boundary(hdrs, i, b)
    requires OpenLoop(hdrs[..i]) == -1
    ensures OpenLoop(hdrs[..b]) == -1
    decreases |hdrs| - i
  {
    if i < b {
      var n := After(hdrs, i);
      BoundaryMonotone(hdrs, n, b);
      assert MarkAt(hdrs, i);
      assert hdrs[..n][n - 1] == hdrs[n - 1];
      NoLoopOpenAtBoundary(hdrs, n, b);
    }
  }

  // ---------------------------------------------------------------------------
  // Nothing behind a boundary depends on what is queued later
  // ---------------------------------------------------------------------------

  predicate SameMedia(a: Hdr, b: Hdr) {
    a.data == b.data && a.begin == b.begin && a.end == b.end && a.plays == b.plays
  }

  ghost predicate Agree(hdrs: seq<Hdr>, hdrs': seq<Hdr>, b: nat) {
    && b <= |hdrs| && b <= |hdrs'|
    && forall i :: 0 <= i < b ==>
         hdrs[i].data == hdrs'[i].data && hdrs[i].begin == hdrs'[i].begin && hdrs[i].plays == hdrs'[i].plays
  }

  /** Loops that begin before `b` end where they did. */
  ghost predicate SameLoops(hdrs: seq<Hdr>, hdrs': seq<Hdr>, b: nat) {
    && b <= |hdrs| && b <= |hdrs'|
    && forall i :: 0 <= i < b && hdrs[i].begin ==> After(hdrs', i) == After(hdrs, i)
  }

  lemma {:induction false} DataAgrees(hdrs: seq<Hdr>, hdrs': seq<Hdr>, lo: nat, hi: nat)
    requires Agree(hdrs, hdrs', hi)
    ensures Data(hdrs, lo, hi) == Data(hdrs', lo, hi)
    decreases hi
  {
    if lo < hi {
      DataAgrees(hdrs, hdrs', lo, hi - 1);
    }
  }

  lemma {:induction false} BoundaryAgrees(hdrs: seq<Hdr>, hdrs': seq<Hdr>, i: nat, b: nat)
    requires Agree(hdrs, hdrs', b) && SameLoops(hdrs, hdrs', b) && Boundary(hdrs, i, b)
    ensures Boundary(hdrs', i, b)
    ensures ExpandTo(hdrs', i, b) == ExpandTo(hdrs, i, b)
    decreases |hdrs| - i
  {
    if i < b {
      var n := After(hdrs, i);
      assert After(hdrs', i) == n;
      BoundaryMonotone(hdrs, n, b);
      DataAgrees(hdrs, hdrs', i, n);
      BoundaryAgrees(hdrs, hdrs', n, b);
    }
  }

  /** Where a loop ends depends on the ends alone. */
  lemma EndsDecide(hdrs: seq<Hdr>, hdrs': seq<Hdr>)
    requires |hdrs'| == |hdrs| && forall i :: 0 <= i < |hdrs| ==> SameMedia(hdrs[i], hdrs'[i])
    ensures Agree(hdrs, hdrs', |hdrs|) && SameLoops(hdrs, hdrs', |hdrs|)
  {
    forall i | 0 <= i < |hdrs| && hdrs[i].begin
      ensures After(hdrs', i) == After(hdrs, i)
    {
      LoopEndIs(hdrs', i, LoopEnd(hdrs, i));
    }
  }

  lemma LoopEndIs(hdrs: seq<Hdr>, i: nat, e: nat)
    requires i <= e < |hdrs| && (hdrs[e].end || e + 1 == |hdrs|)
    requires forall j :: i <= j < e ==> !hdrs[j].end
    ensures LoopEnd(hdrs, i) == e
  {
  }

  // ---------------------------------------------------------------------------
  // How much of the stream has been pulled
  // ---------------------------------------------------------------------------

  /** The stream up to the first byte of the current header: the finished segments,
      and inside a loop the finished passes and the headers already done in this one. */
  function Base(q: Queue): seq<Byte>
    requires CursorOk(q)
  {
    ExpandTo(q.hdrs, 0, Segment(q)) +
    if q.loopStart == -1 then []
    else
      Repeat(Data(q.hdrs, q.loopStart, After(q.hdrs, q.loopStart)), q.passes) + Data(q.hdrs, q.loopStart, q.cur)
  }

  /** The part of the current header that has been handed out. */
  function Part(q: Queue): seq<Byte>
    requires CursorOk(q)
  {
    if q.cur == |q.hdrs| then [] else q.hdrs[q.cur].data[..|q.hdrs[q.cur].data| - q.inCur]
  }

  function Pulled(q: Queue): seq<Byte>
    requires CursorOk(q)
  {
    Base(q) + Part(q)
  }

  /** While a loop is being copied out the current header lies in it.  A loop that is still
      open ends, for the time being, with the list. */
  predicate InsideLoop(q: Queue)
    requires CursorOk(q)
  {
    q.loopStart != -1 ==>
      && q.hdrs[q.loopStart].begin
      && q.cur <= LoopEnd(q.hdrs, q.loopStart)
      && (if q.hdrs[q.loopStart].plays == INFINITE then q.loopDec == 0 && q.loopCount == INFINITE
          else q.loopDec == 1 && q.loopCount + q.passes == q.hdrs[q.loopStart].plays)
  }

  /** Loops that copying has not reached still carry the count they were queued with. */
  ghost predicate Untouched(q: Queue) {
    forall i :: 0 <= i < |q.hdrs| && q.hdrs[i].begin
                && (if q.loopStart == -1 then q.cur else q.loopStart + 1) <= i
                ==> q.hdrs[i].loops == q.hdrs[i].plays
  }

  ghost predicate StreamPart(q: Queue)
    requires CursorOk(q)
  {
    && InsideLoop(q)
    && Boundary(q.hdrs, 0, Segment(q))
    && Untouched(q)
    && (q.loopStart == -1 && q.cur < |q.hdrs| && q.hdrs[q.cur].begin ==> q.inCur == |q.hdrs[q.cur].data|)
  }

  ghost predicate StreamInv(q: Queue) {
    Shape(q) && StreamPart(q)
  }

  lemma EnterLoopKeepsStream(q: Queue)
    requires CursorOk(q) && LoopsAhead(q) && StreamPart(q) && q.cur < |q.hdrs| && AllPlayable(q.hdrs)
    ensures var e := EnterLoop(q);
            && CursorOk(e) && StreamPart(e) && Pulled(e) == Pulled(q)
            && (e.loopStart == -1 ==> !q.hdrs[q.cur].begin)
            && e.hdrs == q.hdrs && e.cur == q.cur && e.inCur == q.inCur
  {
    var e := EnterLoop(q);
    if e != q {
      assert Data(q.hdrs, e.loopStart, e.cur) == [];
    }
  }

  /** The current header ends the loop being copied, if only because no other is queued. */
  predicate EndsLoop(q: Queue)
    requires q.cur < |q.hdrs|
  {
    q.hdrs[q.cur].end || q.cur + 1 == |q.hdrs|
  }

  /** Repeat once more is the same as one pass of the body after the earlier ones. */
  lemma LastHeaderClosesPass(q: Queue)
    requires CursorOk(q) && q.cur < |q.hdrs| && q.loopStart != -1 && InsideLoop(q)
    requires EndsLoop(q)
    ensures After(q.hdrs, q.loopStart) == q.cur + 1
    ensures Data(q.hdrs, q.loopStart, q.cur) + q.hdrs[q.cur].data
         == Data(q.hdrs, q.loopStart, After(q.hdrs, q.loopStart))
  {
  }

  /** What has been pulled once the current header is finished. */
  function Whole(q: Queue): seq<Byte>
    requires CursorOk(q) && q.cur < |q.hdrs| && InsideLoop(q)
  {
    Base(q) + q.hdrs[q.cur].data
  }

  /** The state after the rest of the current header has been handed out. */
  function Finish(q: Queue): Queue
    requires q.cur < |q.hdrs|
  {
    Take(q, q.inCur)
  }

  lemma RollOverKeepsCursor(q: Queue)
    requires CursorOk(q) && AllPlayable(q.hdrs) && q.cur < |q.hdrs|
    ensures CursorOk(Finish(q)) && Finish(q).hdrs == q.hdrs
  {
  }

  /** A queue standing at the first byte of header `i`, in the loop that starts at
      `s` (-1 for none) with `count` passes to go and `k` made. */
  function At(q: Queue, i: nat, s: int, count: nat, k: nat): Queue {
    StepTo(q.(loopStart := s, loopCount := count, passes := k, buffered := q.buffered + q.inCur), i)
  }

  lemma PulledAtStart(q: Queue, i: nat, s: int, count: nat, k: nat)
    requires CursorOk(At(q, i, s, count, k))
    ensures Pulled(At(q, i, s, count, k)) == Base(At(q, i, s, count, k))
  {
    if i < |q.hdrs| {
      assert q.hdrs[i].data[..0] == [];
    }
  }

  lemma RollOverOutsideLoop(q: Queue)
    requires CursorOk(q) && AllPlayable(q.hdrs) && StreamPart(q) && q.cur < |q.hdrs|
    requires q.loopStart == -1 && !q.hdrs[q.cur].begin
    ensures var r := Finish(q); CursorOk(r) && StreamPart(r) && Pulled(r) == Whole(q)
  {
    RollOverKeepsCursor(q);
    BoundaryAdvances(q.hdrs, 0, q.cur);
    assert Finish(q) == At(q, q.cur + 1, -1, q.loopCount, q.passes);
    PulledAtStart(q, q.cur + 1, -1, q.loopCount, q.passes);
  }

  lemma RollOverMidLoop(q: Queue)
    requires CursorOk(q) && AllPlayable(q.hdrs) && StreamPart(q) && q.cur < |q.hdrs|
    requires q.loopStart != -1 && !EndsLoop(q)
    ensures var r := Finish(q); CursorOk(r) && StreamPart(r) && Pulled(r) == Whole(q)
  {
    RollOverKeepsCursor(q);
    assert q.cur < LoopEnd(q.hdrs, q.loopStart);
    assert Finish(q) == At(q, q.cur + 1, q.loopStart, q.loopCount, q.passes);
    PulledAtStart(q, q.cur + 1, q.loopStart, q.loopCount, q.passes);
    hide AllPlayable, Repeat, ExpandTo, Boundary, Pulled;
    MidLoopBase(q);
  }

  lemma MidLoopBase(q: Queue)
    requires CursorOk(q) && q.cur < |q.hdrs| && q.loopStart != -1 && InsideLoop(q)
    requires CursorOk(At(q, q.cur + 1, q.loopStart, q.loopCount, q.passes))
    ensures Base(At(q, q.cur + 1, q.loopStart, q.loopCount, q.passes)) == Whole(q)
  {
    hide Repeat, ExpandTo;
    var pre, passes := ExpandTo(q.hdrs, 0, q.loopStart),
      Repeat(Data(q.hdrs, q.loopStart, After(q.hdrs, q.loopStart)), q.passes);
    var body := Data(q.hdrs, q.loopStart, q.cur);
    assert Data(q.hdrs, q.loopStart, q.cur + 1) == body + q.hdrs[q.cur].data;
    assert pre + (passes + (body + q.hdrs[q.cur].data)) == (pre + (passes + body)) + q.hdrs[q.cur].data;
  }

  lemma RollOverBackToStart(q: Queue)
    requires CursorOk(q) && AllPlayable(q.hdrs) && StreamPart(q) && q.cur < |q.hdrs|
    requires q.loopStart != -1 && EndsLoop(q) && q.loopCount > q.loopDec
    ensures var r := Finish(q); CursorOk(r) && StreamPart(r) && Pulled(r) == Whole(q)
  {
    RollOverKeepsCursor(q);
    LastHeaderClosesPass(q);
    var s, k := q.loopStart, q.passes;
    assert Finish(q) == At(q, s, s, q.loopCount - q.loopDec, k + 1);
    PulledAtStart(q, s, s, q.loopCount - q.loopDec, k + 1);
    PassAgain(ExpandTo(q.hdrs, 0, s), Data(q.hdrs, s, q.cur), q.hdrs[q.cur].data, k);
    hide ExpandTo, Boundary, Repeat, AllPlayable, LoopEnd;
  }

  lemma RollOverOutOfLoop(q: Queue)
    requires CursorOk(q) && AllPlayable(q.hdrs) && StreamPart(q) && q.cur < |q.hdrs|
    requires q.loopStart != -1 && EndsLoop(q) && q.loopCount == q.loopDec
    ensures var r := Finish(q); CursorOk(r) && StreamPart(r) && Pulled(r) == Whole(q)
  {
    RollOverKeepsCursor(q);
    LastHeaderClosesPass(q);
    BoundaryAdvances(q.hdrs, 0, q.loopStart);
    assert Finish(q) == At(q, q.cur + 1, -1, 0, 0);
    PulledAtStart(q, q.cur + 1, -1, 0, 0);
    LastPassBase(q);
    hide AllPlayable, Repeat, ExpandTo, Boundary, Pulled, Base;
  }

  /** The last pass makes the loop's data whole. */
  lemma LastPassBase(q: Queue)
    requires CursorOk(q) && q.cur < |q.hdrs| && q.loopStart != -1 && InsideLoop(q)
    requires EndsLoop(q) && q.loopCount == q.loopDec && CursorOk(At(q, q.cur + 1, -1, 0, 0))
    requires Boundary(q.hdrs, 0, q.loopStart)
    ensures Base(At(q, q.cur + 1, -1, 0, 0)) == Whole(q)
  {
    LastHeaderClosesPass(q);
    BoundaryAdvances(q.hdrs, 0, q.loopStart);
    hide ExpandTo, Boundary, Repeat, LoopEnd;
    var s := q.loopStart;
    PassAgain(ExpandTo(q.hdrs, 0, s), Data(q.hdrs, s, q.cur), q.hdrs[q.cur].data, q.passes);
  }

  /** `k` passes and a last header make `k + 1` passes. */
  lemma PassAgain(pre: seq<Byte>, body: seq<Byte>, last: seq<Byte>, k: nat)
    ensures pre + Repeat(body + last, k + 1) == (pre + (Repeat(body + last, k) + body)) + last
    ensures Repeat(body + last, k + 1) + [] == Repeat(body + last, k + 1)
  {
    assert Repeat(body + last, k + 1) == Repeat(body + last, k) + (body + last);
  }

  lemma RollOverPulls(q: Queue)
    requires CursorOk(q) && AllPlayable(q.hdrs) && StreamPart(q) && q.cur < |q.hdrs|
    requires q.loopStart == -1 ==> !q.hdrs[q.cur].begin
    ensures var r := Finish(q); CursorOk(r) && StreamPart(r) && Pulled(r) == Whole(q)
  {
    if q.loopStart == -1 {
      RollOverOutsideLoop(q);
    } else if !EndsLoop(q) {
      RollOverMidLoop(q);
    } else if q.loopCount > q.loopDec {
      RollOverBackToStart(q);
    } else {
      RollOverOutOfLoop(q);
    }
  }

  lemma PartKeepsStream(q: Queue, k: nat)
    requires CursorOk(q) && StreamPart(q) && q.cur < |q.hdrs| && k < q.inCur
    requires q.loopStart == -1 ==> !q.hdrs[q.cur].begin
    ensures CursorOk(Take(q, k)) && StreamPart(Take(q, k))
  {
  }

  lemma PartPulls(q: Queue, k: nat)
    requires CursorOk(q) && InsideLoop(q) && q.cur < |q.hdrs| && k < q.inCur
    ensures CursorOk(Take(q, k)) && InsideLoop(Take(q, k))
    ensures Pulled(Take(q, k)) == Pulled(q) + Block(q, k)
  {
    var data := q.hdrs[q.cur].data;
    var at := |data| - q.inCur;
    assert Part(Taken(q, k)) == data[..at + k] == data[..at] + data[at..at + k];
    assert Base(Taken(q, k)) == Base(q);
    ConcatAssoc(Base(q), data[..at], data[at..at + k]);
  }

  lemma WholeIsPulledPlusRest(q: Queue)
    requires CursorOk(q) && InsideLoop(q) && q.cur < |q.hdrs|
    ensures Whole(q) == Pulled(q) + Block(q, q.inCur)
  {
    var data := q.hdrs[q.cur].data;
    var at := |data| - q.inCur;
    assert data == data[..at] + data[at..|data|];
    ConcatAssoc(Base(q), data[..at], data[at..|data|]);
  }

  lemma TakePulls(q: Queue, k: nat)
    requires CursorOk(q) && AllPlayable(q.hdrs) && StreamPart(q) && q.cur < |q.hdrs| && k <= q.inCur
    requires q.loopStart == -1 ==> !q.hdrs[q.cur].begin
    ensures CursorOk(Take(q, k)) && StreamPart(Take(q, k))
    ensures Pulled(Take(q, k)) == Pulled(q) + Block(q, k)
  {
    if k < q.inCur {
      PartKeepsStream(q, k);
      PartPulls(q, k);
    } else {
      RollOverPulls(q);
      WholeIsPulledPlusRest(q);
    }
  }

  /** Every block handed out is exactly the next piece of the stream. */
  lemma NextPulls(q: Queue, n: nat)
    requires StreamInv(q) && q.cur < |q.hdrs|
    ensures StreamInv(Next(q, n).0)
    ensures Pulled(Next(q, n).0) == Pulled(q) + Next(q, n).1
  {
    var k := Min(n, q.inCur);
    NextKeepsShape(q, n);
    EnterLoopKeepsStream(q);
    assert Block(EnterLoop(q), k) == Block(q, k);
    TakePulls(EnterLoop(q), k);
  }

  // ---------------------------------------------------------------------------
  // Queuing more does not disturb what has been pulled
  // ---------------------------------------------------------------------------

  /** The header would go into a loop that copying has been round already. */
  predicate TooLate(q: Queue, begin: bool) {
    && !begin && 0 <= q.build < |q.hdrs|
    && (q.cur == |q.hdrs| || (q.loopStart == q.build && 0 < q.passes))
  }

  /** A loop that no header has ended is the one being built. */
  lemma {:induction false} OpenIsBuilt(hdrs: seq<Hdr>, i: nat, j: nat)
    requires Marks(hdrs) && i <= j < |hdrs| && hdrs[i].begin && forall k :: i <= k < j ==> !hdrs[k].end
    ensures hdrs[j].loopStart == i
    decreases j
  {
    assert MarkAt(hdrs, j);
    if i < j {
      OpenIsBuilt(hdrs, i, j - 1);
      assert hdrs[..j][j - 1] == hdrs[j - 1];
    }
  }

  /** Queuing changes where a loop ends only if it adds to the loop. */
  lemma AddKeepsLoops(q: Queue, data: seq<Byte>, begin: bool, end: bool, loops: nat)
    requires Shape(q) && CanAdd(q, begin)
    ensures q.build < |q.hdrs|
    ensures var r, b := Add(q, data, begin, end, loops), if begin || q.build == -1 then |q.hdrs| else q.build;
            0 <= b && Agree(q.hdrs, r.hdrs, |q.hdrs|) && SameLoops(q.hdrs, r.hdrs, b)
  {
    var r := Add(q, data, begin, end, loops);
    assert q.hdrs[..|q.hdrs|] == q.hdrs;
    OpenLoopIs(q.hdrs, |q.hdrs|);
    forall i | 0 <= i < (if begin || q.build == -1 then |q.hdrs| else q.build) && q.hdrs[i].begin
      ensures After(r.hdrs, i) == After(q.hdrs, i)
    {
      var e := LoopEnd(q.hdrs, i);
      OpenIsBuilt(q.hdrs, i, e);
      LoopEndIs(r.hdrs, i, e);
    }
  }

  /** A loop still open does not begin before the segment being copied, unless copying has
      come to the end of the list. */
  lemma BuiltAhead(q: Queue)
    requires Shape(q) && StreamPart(q) && q.build != -1 && q.cur < |q.hdrs|
    ensures Segment(q) <= q.build < |q.hdrs|
  {
    var b := Segment(q);
    assert q.hdrs[..|q.hdrs|] == q.hdrs && q.hdrs[..0] == [];
    OpenLoopIs(q.hdrs, |q.hdrs|);
    NoLoopOpenAtBoundary(q.hdrs, 0, b);
    assert b > 0 ==> q.hdrs[..b][b - 1] == q.hdrs[b - 1];
  }

  lemma LoopAgrees(q: Queue, r: Queue)
    requires CursorOk(q) && InsideLoop(q) && CursorOk(r) && q.loopStart != -1
    requires r.cur == q.cur && r.loopStart == q.loopStart && r.loopCount == q.loopCount && r.loopDec == q.loopDec
    requires r.passes == q.passes
    requires Agree(q.hdrs, r.hdrs, |q.hdrs|) && LoopEnd(q.hdrs, q.loopStart) <= LoopEnd(r.hdrs, q.loopStart)
    requires After(r.hdrs, q.loopStart) == After(q.hdrs, q.loopStart) || q.passes == 0
    ensures InsideLoop(r) && Data(r.hdrs, q.loopStart, q.cur) == Data(q.hdrs, q.loopStart, q.cur)
    ensures var s := q.loopStart;
            Repeat(Data(r.hdrs, s, After(r.hdrs, s)), q.passes) == Repeat(Data(q.hdrs, s, After(q.hdrs, s)), q.passes)
  {
    DataAgrees(q.hdrs, r.hdrs, q.loopStart, After(q.hdrs, q.loopStart));
    DataAgrees(q.hdrs, r.hdrs, q.loopStart, q.cur);
  }

  lemma BaseAgrees(q: Queue, r: Queue)
    requires CursorOk(q) && InsideLoop(q) && Boundary(q.hdrs, 0, Segment(q)) && CursorOk(r)
    requires r.cur == q.cur && r.loopStart == q.loopStart && r.loopCount == q.loopCount && r.loopDec == q.loopDec
    requires r.passes == q.passes
    requires Agree(q.hdrs, r.hdrs, |q.hdrs|) && SameLoops(q.hdrs, r.hdrs, Segment(q))
    requires q.loopStart != -1 ==>
               && LoopEnd(q.hdrs, q.loopStart) <= LoopEnd(r.hdrs, q.loopStart)
               && (After(r.hdrs, q.loopStart) == After(q.hdrs, q.loopStart) || q.passes == 0)
    ensures Boundary(r.hdrs, 0, Segment(r)) && InsideLoop(r)
    ensures Base(r) == Base(q)
  {
    BoundaryAgrees(q.hdrs, r.hdrs, 0, Segment(q));
    if q.loopStart != -1 {
      LoopAgrees(q, r);
    }
    hide Boundary, ExpandTo, Repeat, Data, After, LoopEnd, Agree, SameLoops, InsideLoop, Playable;
  }

  lemma AddKeepsUntouched(q: Queue, data: seq<Byte>, begin: bool, end: bool, loops: nat)
    requires Shape(q) && StreamPart(q) && CanAdd(q, begin)
    ensures Untouched(Add(q, data, begin, end, loops))
  {
  }

  lemma AddKeepsPart(q: Queue, data: seq<Byte>, begin: bool, end: bool, loops: nat)
    requires CursorOk(q) && CanAdd(q, begin) && |data| > 0
    ensures var r := Add(q, data, begin, end, loops);
            CursorOk(r) && Part(r) == Part(q) && Segment(r) == Segment(q)
            && r.cur == q.cur && r.loopStart == q.loopStart && r.loopCount == q.loopCount && r.loopDec == q.loopDec
            && r.passes == q.passes
            && (r.cur < |q.hdrs| ==> r.inCur == q.inCur && SameButEnd(r.hdrs[q.cur], q.hdrs[q.cur]))
            && (r.cur == |q.hdrs| ==> r.inCur == |data| == |r.hdrs[r.cur].data|)
  {
  }

  predicate SameButEnd(a: Hdr, b: Hdr) { a == b.(end := a.end) }

  lemma AddKeepsStream(q: Queue, data: seq<Byte>, begin: bool, end: bool, loops: nat)
    requires StreamInv(q) && CanAdd(q, begin) && !TooLate(q, begin)
    requires Playable(NewHdr(data, begin, end, loops))
    ensures StreamInv(Add(q, data, begin, end, loops))
    ensures Pulled(Add(q, data, begin, end, loops)) == Pulled(q)
  {
    AddKeepsShape(q, data, begin, end, loops);
    AddKeepsRest(q, data, begin, end, loops);
  }

  lemma AddKeepsRest(q: Queue, data: seq<Byte>, begin: bool, end: bool, loops: nat)
    requires Shape(q) && StreamPart(q) && CanAdd(q, begin) && |data| > 0 && !TooLate(q, begin)
    ensures var r := Add(q, data, begin, end, loops);
            CursorOk(r) && StreamPart(r) && Pulled(r) == Pulled(q)
  {
    AddKeepsPart(q, data, begin, end, loops);
    AddKeepsLoops(q, data, begin, end, loops);
    AddKeepsUntouched(q, data, begin, end, loops);
    if q.build != -1 && q.cur < |q.hdrs| {
      BuiltAhead(q);
    }
    var r := Add(q, data, begin, end, loops);
    if q.loopStart != -1 {
      assert q.hdrs[q.loopStart].begin;
      assert LoopEnd(q.hdrs, q.loopStart) <= LoopEnd(r.hdrs, q.loopStart);
    }
    BaseAgrees(q, r);
  }

  lemma {:induction false} LongerPasses(a: seq<Byte>, b: seq<Byte>, n: nat)
    requires |a| < |b| && 0 < n
    ensures |Repeat(a, n)| < |Repeat(b, n)|
  {
    if n > 1 {
      LongerPasses(a, b, n - 1);
    } else {
      assert Repeat(a, 0) == Repeat(b, 0) == [];
    }
  }

  /** Added to a loop that copying is going round again, a header changes what the passes made
      should have been. */
  lemma TooLateInLoop(q: Queue, data: seq<Byte>, end: bool, loops: nat)
    requires StreamInv(q) && TooLate(q, false) && q.cur < |q.hdrs| && |data| > 0
    ensures var r := Add(q, data, false, end, loops);
            CursorOk(r) && InsideLoop(r) ==> Pulled(r) != Pulled(q)
  {
    var r, s := Add(q, data, false, end, loops), q.loopStart;
    assert q.hdrs[..|q.hdrs|] == q.hdrs;
    OpenLoopIs(q.hdrs, |q.hdrs|);
    LoopEndIs(q.hdrs, s, |q.hdrs| - 1);
    LoopEndIs(r.hdrs, s, |q.hdrs|);
    AddKeepsPart(q, data, false, end, loops);
    AddKeepsLoops(q, data, false, end, loops);
    BoundaryAgrees(q.hdrs, r.hdrs, 0, s);
    DataAgrees(q.hdrs, r.hdrs, s, |q.hdrs|);
    DataAgrees(q.hdrs, r.hdrs, s, q.cur);
    LongerPasses(Data(q.hdrs, s, |q.hdrs|), Data(r.hdrs, s, |q.hdrs| + 1), q.passes);
  }

  /** Added to a loop that copying has left, it is a header in the middle of a segment. */
  lemma TooLateAfterLoop(q: Queue, data: seq<Byte>, end: bool, loops: nat)
    requires StreamInv(q) && TooLate(q, false) && q.cur == |q.hdrs| && |data| > 0
    ensures var r := Add(q, data, false, end, loops); CursorOk(r) && !StreamPart(r)
  {
    var r := Add(q, data, false, end, loops);
    AddKeepsMarks(q, data, false, end, loops);
    assert r.hdrs[..|q.hdrs|] == q.hdrs && r.hdrs[..0] == [];
    if Boundary(r.hdrs, 0, |q.hdrs|) {
      NoLoopOpenAtBoundary(r.hdrs, 0, |q.hdrs|);
    }
  }

  /** Queuing leaves what has been handed out a prefix of what is queued, exactly if it adds to
      no loop that copying has been round already. */
  lemma AddKeepsStreamIff(q: Queue, data: seq<Byte>, begin: bool, end: bool, loops: nat)
    requires StreamInv(q) && CanAdd(q, begin) && Playable(NewHdr(data, begin, end, loops))
    ensures var r := Add(q, data, begin, end, loops);
            StreamInv(r) && Pulled(r) == Pulled(q) <==> !TooLate(q, begin)
  {
    if !TooLate(q, begin) {
      AddKeepsStream(q, data, begin, end, loops);
    } else if q.cur < |q.hdrs| {
      TooLateInLoop(q, data, end, loops);
    } else {
      TooLateAfterLoop(q, data, end, loops);
    }
  }

  // ---------------------------------------------------------------------------
  // What has been pulled is a prefix of what was queued
  // ---------------------------------------------------------------------------

  lemma {:induction false} RepeatPrefix(s: seq<Byte>, a: nat, b: nat)
    requires a <= b
    ensures Repeat(s, a) <= Repeat(s, b)
  {
    if a < b {
      RepeatPrefix(s, a, b - 1);
    }
  }

  lemma {:induction false} DataPrefix(hdrs: seq<Hdr>, lo: nat, mid: nat, hi: nat)
    requires lo <= mid <= hi <= |hdrs|
    ensures Data(hdrs, lo, mid) <= Data(hdrs, lo, hi)
  {
    if mid < hi {
      DataPrefix(hdrs, lo, mid, hi - 1);
    }
  }

  lemma PassIsPrefix(q: Queue, k: nat)
    requires CursorOk(q) && InsideLoop(q) && q.loopStart != -1 && q.passes < k
    ensures Repeat(Data(q.hdrs, q.loopStart, After(q.hdrs, q.loopStart)), q.passes)
            + Data(q.hdrs, q.loopStart, q.cur + 1)
         <= SegmentData(q.hdrs, q.loopStart, k)
  {
    var body := Data(q.hdrs, q.loopStart, After(q.hdrs, q.loopStart));
    DataPrefix(q.hdrs, q.loopStart, q.cur + 1, After(q.hdrs, q.loopStart));
    RepeatPrefix(body, q.passes + 1, Passes(q.hdrs[q.loopStart], k));
    assert Repeat(body, q.passes + 1) == Repeat(body, q.passes) + body;
  }

  lemma PulledInLoopIsPrefix(q: Queue, k: nat)
    requires CursorOk(q) && StreamPart(q) && q.loopStart != -1 && q.passes < k
    ensures Pulled(q) <= ExpandTo(q.hdrs, 0, q.loopStart) + SegmentData(q.hdrs, q.loopStart, k)
  {
    var pre := ExpandTo(q.hdrs, 0, q.loopStart);
    var passes := Repeat(Data(q.hdrs, q.loopStart, After(q.hdrs, q.loopStart)), q.passes);
    var done := Data(q.hdrs, q.loopStart, q.cur);
    PassIsPrefix(q, k);
    assert Part(q) <= q.hdrs[q.cur].data;
    assert Data(q.hdrs, q.loopStart, q.cur + 1) == done + q.hdrs[q.cur].data;
    assert Pulled(q) == pre + (passes + (done + Part(q)));
  }

  lemma PulledOutsideLoopIsPrefix(q: Queue, k: nat)
    requires CursorOk(q) && StreamPart(q) && q.loopStart == -1 && q.cur < |q.hdrs|
    ensures Pulled(q) <= ExpandTo(q.hdrs, 0, q.cur) + SegmentData(q.hdrs, q.cur, k)
  {
    assert Base(q) == ExpandTo(q.hdrs, 0, q.cur);
    if q.hdrs[q.cur].begin {
      assert Part(q) == [];
    }
  }

  lemma MeaningSplits(hdrs: seq<Hdr>, b: nat, k: nat)
    requires b < |hdrs| && Boundary(hdrs, 0, b)
    ensures ExpandTo(hdrs, 0, b) + SegmentData(hdrs, b, k) <= Meaning(hdrs, k)
  {
    ExpandSplits(hdrs, 0, b, k);
    ConcatAssoc(ExpandTo(hdrs, 0, b), SegmentData(hdrs, b, k), Expand(hdrs, After(hdrs, b), k));
  }

  lemma PulledIsAll(q: Queue, k: nat)
    requires CursorOk(q) && StreamPart(q) && q.cur == |q.hdrs|
    ensures Pulled(q) == Meaning(q.hdrs, k)
  {
    ExpandSplits(q.hdrs, 0, q.cur, k);
    assert Expand(q.hdrs, q.cur, k) == [];
  }

  /** Whatever the sizes of the pulls, the bytes handed out are a prefix of the bytes
      queued, endless loops going on as long as need be; once nothing is left to hand out they
      are all of them. */
  lemma PulledIsPrefix(q: Queue, k: nat)
    requires StreamInv(q)
    ensures q.passes < k ==> Pulled(q) <= Meaning(q.hdrs, k)
    ensures q.cur == |q.hdrs| ==> Pulled(q) == Meaning(q.hdrs, k)
  {
    if q.cur == |q.hdrs| {
      PulledIsAll(q, k);
    } else if q.passes < k {
      MeaningSplits(q.hdrs, Segment(q), k);
      if q.loopStart != -1 {
        PulledInLoopIsPrefix(q, k);
      } else {
        PulledOutsideLoopIsPrefix(q, k);
      }
    }
  }
}
