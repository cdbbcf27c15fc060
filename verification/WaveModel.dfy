/** The wave header queue as a value: what CWavehdrQueue does to its list of
    headers, written as functions from state to state.

    `hdrs` holds every header queued since the last Reset, in queue order, and
    positions in it are never renumbered.  Headers before `head` have been handed
    back to the client; `cur` is the header being copied into the DMA buffer and
    equals |hdrs| where the driver's m_pCurrent is NULL.  The driver's header
    pointers (m_pLoopStart, m_pBuildLoopBegin, the `reserved` field) are positions
    in `hdrs`, with -1 for NULL.

    `passes` is history the driver does not keep: how often the loop being copied has been
    copied whole.  For a counted loop that is its count less m_dwLoopCount. */
module WaveModel {

  type Byte = bv8

  const INFINITE: nat := 0xFFFF_FFFF
  const DWORD_RANGE: nat := 0x1_0000_0000

  /** One queued header.  `plays` is dwLoops as it was when the header was queued;
      `loops` is the same field as AdvanceCurrentPosition counts it down. */
  datatype Hdr = Hdr(
    data: seq<Byte>,
    begin: bool,
    end: bool,
    plays: nat,
    loops: nat,
    recorded: nat,
    done: bool,
    loopStart: int)

  datatype Queue = Queue(
    hdrs: seq<Hdr>,
    head: nat,
    cur: nat,
    inCur: nat,
    loopStart: int,
    loopCount: nat,
    loopDec: nat,
    build: int,
    buffered: int,
    completed: nat,
    passes: nat)

  /** A header as the client queues it. */
  function NewHdr(data: seq<Byte>, begin: bool, end: bool, loops: nat): Hdr {
    Hdr(data, begin, end, loops, loops, 0, false, -1)
  }

  function EmptyQueue(loopDec: nat): Queue {
    Queue([], 0, 0, 0, -1, 0, loopDec, -1, 0, 0, 0)
  }

  function LengthAt(hdrs: seq<Hdr>, i: nat): nat {
    if i < |hdrs| then |hdrs[i].data| else 0
  }

  // ---------------------------------------------------------------------------
  // Invariants
  // ---------------------------------------------------------------------------

  /** What a client may queue: at least one byte, and a loop that runs at least once. */
  predicate Playable(h: Hdr) {
    && 0 < |h.data| < DWORD_RANGE
    && h.plays <= INFINITE
    && (h.begin ==> 1 <= h.plays)
  }

  ghost predicate AllPlayable(hdrs: seq<Hdr>) {
    forall i :: 0 <= i < |hdrs| ==> Playable(hdrs[i])
  }

  /** The first header whose copying is not finished: the start of the loop being
      copied, or else the current header. */
  function Segment(q: Queue): int {
    if q.loopStart == -1 then q.cur else q.loopStart
  }

  /** No loop that is still to be copied out has been counted down to zero. */
  ghost predicate LoopsAhead(q: Queue) {
    forall i :: Segment(q) <= i < |q.hdrs| && 0 <= i && q.hdrs[i].begin ==> 1 <= q.hdrs[i].loops <= INFINITE
  }

  predicate CursorOk(q: Queue) {
    && q.head <= q.cur <= |q.hdrs|
    && (if q.cur < |q.hdrs| then 0 < q.inCur <= |q.hdrs[q.cur].data| else q.inCur == 0)
    && (q.loopStart == -1
        || (q.head <= q.loopStart <= q.cur < |q.hdrs| && 1 <= q.loopCount <= INFINITE))
    && q.loopDec <= 1
    && 0 <= q.buffered
    && 0 <= q.completed < DWORD_RANGE
  }

  /** Holds in every reachable state, whatever loops are queued. */
  ghost predicate Shape(q: Queue) {
    && CursorOk(q)
    && AllPlayable(q.hdrs)
    && LoopsAhead(q)
    && Marks(q.hdrs)
    && q.build == OpenLoop(q.hdrs)
  }

  /** The loop a header appended to `hdrs` would fall into, or -1. */
  function OpenLoop(hdrs: seq<Hdr>): int {
    if hdrs == [] || hdrs[|hdrs| - 1].end then -1 else hdrs[|hdrs| - 1].loopStart
  }

  /** Header `i` carries the mark of the loop it was queued in: a BEGINLOOP header its own
      position, any other header its predecessor's mark unless that one ended the loop. */
  predicate MarkAt(hdrs: seq<Hdr>, i: nat)
    requires i < |hdrs|
  {
    if hdrs[i].begin
    then hdrs[i].loopStart == i && OpenLoop(hdrs[..i]) == -1
    else hdrs[i].loopStart == OpenLoop(hdrs[..i])
  }

  /** All marks are right, and no loop begins inside another. */
  ghost predicate Marks(hdrs: seq<Hdr>) {
    forall i: nat | i < |hdrs| :: MarkAt(hdrs, i)
  }

  /** `b` begins a loop that no header from there up to `n` ends. */
  ghost predicate OpenFrom(hdrs: seq<Hdr>, b: int, n: nat)
    requires n <= |hdrs|
  {
    b == -1 || (0 <= b < n && hdrs[b].begin
                && forall i :: b <= i < n ==> !hdrs[i].end && hdrs[i].loopStart == b && (hdrs[i].begin ==> i == b))
  }

  lemma {:induction false} OpenLoopIs(hdrs: seq<Hdr>, n: nat)
    requires Marks(hdrs) && n <= |hdrs|
    ensures OpenFrom(hdrs, OpenLoop(hdrs[..n]), n)
  {
    if n > 0 {
      OpenLoopIs(hdrs, n - 1);
      assert MarkAt(hdrs, n - 1);
      assert hdrs[..n][n - 1] == hdrs[n - 1];
    }
  }

  // ---------------------------------------------------------------------------
  // AddBuffer
  // ---------------------------------------------------------------------------

  /** AddBuffer writes WHDR_ENDLOOP through m_pTail when a loop is begun while another
      is still open; it may only do so while the queue has a tail. */
  predicate CanAdd(q: Queue, begin: bool) {
    begin && q.build != -1 ==> q.head < |q.hdrs|
  }

  function CloseLast(hdrs: seq<Hdr>): seq<Hdr>
    requires hdrs != []
  {
    hdrs[|hdrs| - 1 := hdrs[|hdrs| - 1].(end := true)]
  }

  /** A loop begun while another is open closes that one first. */
  function ClosedFor(q: Queue, begin: bool): seq<Hdr> {
    if begin && q.build != -1 && q.hdrs != [] then CloseLast(q.hdrs) else q.hdrs
  }

  function Add(q: Queue, data: seq<Byte>, begin: bool, end: bool, loops: nat): Queue
    requires CanAdd(q, begin)
  {
    var hdrs := ClosedFor(q, begin);
    var mark := if begin then |hdrs| else q.build;
    q.(hdrs := hdrs + [NewHdr(data, begin, end, loops).(loopStart := mark)],
       build := if end then -1 else mark,
       inCur := if q.cur == |q.hdrs| then |data| else q.inCur)
  }

  // ---------------------------------------------------------------------------
  // GetNextBlock
  // ---------------------------------------------------------------------------

  /** m_pLoopStart and its counter are set by the first block taken from a loop. */
  function EnterLoop(q: Queue): Queue
    requires q.cur < |q.hdrs|
  {
    var h := q.hdrs[q.cur];
    if q.loopStart == -1 && h.begin
    then q.(loopStart := q.cur, loopCount := h.loops, loopDec := if h.loops == INFINITE then 0 else 1, passes := 0)
    else q
  }

  function StepTo(q: Queue, i: nat): Queue {
    q.(cur := i, inCur := LengthAt(q.hdrs, i))
  }

  /** The current header is exhausted: go back to the start of its loop or on to the next. */
  function RollOver(q: Queue): Queue
    requires q.cur < |q.hdrs|
  {
    if q.loopStart != -1 && (q.hdrs[q.cur].end || q.cur + 1 == |q.hdrs|) then
      var left := (q.loopCount - q.loopDec) % DWORD_RANGE;
      if left > 0 && 0 <= q.loopStart
      then StepTo(q.(loopCount := left, passes := q.passes + 1), q.loopStart)
      else StepTo(q.(loopCount := left, loopStart := -1, passes := 0), q.cur + 1)
    else
      StepTo(q, q.cur + 1)
  }

  function Min(a: int, b: int): int { if a <= b then a else b }

  /** `k` bytes of the current header leave the queue. */
  function Taken(q: Queue, k: nat): Queue
    requires k <= q.inCur
  {
    q.(buffered := q.buffered + k, inCur := q.inCur - k)
  }

  function Take(q: Queue, k: nat): Queue
    requires q.cur < |q.hdrs| && k <= q.inCur
  {
    if k == q.inCur then RollOver(Taken(q, k)) else Taken(q, k)
  }

  /** The next `k` bytes of the current header. */
  function Block(q: Queue, k: nat): seq<Byte>
    requires q.cur < |q.hdrs| && k <= q.inCur <= |q.hdrs[q.cur].data|
  {
    var at := |q.hdrs[q.cur].data| - q.inCur;
    q.hdrs[q.cur].data[at..at + k]
  }

  /** GetNextBlock for a queue that still has something to hand out: the new state and
      the block, at most `n` bytes of the current header. */
  function Next(q: Queue, n: nat): (Queue, seq<Byte>)
    requires q.cur < |q.hdrs| && q.inCur <= |q.hdrs[q.cur].data|
  {
    var k := Min(n, q.inCur);
    (Take(EnterLoop(q), k), Block(q, k))
  }

  // ---------------------------------------------------------------------------
  // The structural invariant is kept
  // ---------------------------------------------------------------------------

  lemma AddKeepsMarks(q: Queue, data: seq<Byte>, begin: bool, end: bool, loops: nat)
    requires Marks(q.hdrs) && q.build == OpenLoop(q.hdrs) && CanAdd(q, begin)
    ensures Marks(Add(q, data, begin, end, loops).hdrs)
    ensures var r := Add(q, data, begin, end, loops); r.build == OpenLoop(r.hdrs)
  {
    var r := Add(q, data, begin, end, loops);
    var n := |q.hdrs|;
    forall i: nat | i < |r.hdrs|
      ensures MarkAt(r.hdrs, i)
    {
      if i < n {
        assert MarkAt(q.hdrs, i);
        assert r.hdrs[..i] == q.hdrs[..i];
      } else if n > 0 {
        assert r.hdrs[..n][n - 1] == r.hdrs[n - 1];
      }
    }
  }

  lemma AddKeepsCursor(q: Queue, data: seq<Byte>, begin: bool, end: bool, loops: nat)
    requires CursorOk(q) && CanAdd(q, begin) && |data| > 0
    ensures CursorOk(Add(q, data, begin, end, loops))
  {
  }

  lemma AddKeepsPlayable(q: Queue, data: seq<Byte>, begin: bool, end: bool, loops: nat)
    requires AllPlayable(q.hdrs) && CanAdd(q, begin)
    requires Playable(NewHdr(data, begin, end, loops))
    ensures AllPlayable(Add(q, data, begin, end, loops).hdrs)
  {
  }

  lemma AddKeepsLoopsAhead(q: Queue, data: seq<Byte>, begin: bool, end: bool, loops: nat)
    requires LoopsAhead(q) && CanAdd(q, begin)
    requires Playable(NewHdr(data, begin, end, loops))
    ensures LoopsAhead(Add(q, data, begin, end, loops))
  {
  }

  lemma AddKeepsShape(q: Queue, data: seq<Byte>, begin: bool, end: bool, loops: nat)
    requires Shape(q) && CanAdd(q, begin)
    requires Playable(NewHdr(data, begin, end, loops))
    ensures Shape(Add(q, data, begin, end, loops))
  {
    AddKeepsCursor(q, data, begin, end, loops);
    AddKeepsPlayable(q, data, begin, end, loops);
    AddKeepsLoopsAhead(q, data, begin, end, loops);
    AddKeepsMarks(q, data, begin, end, loops);
  }

  lemma NextKeepsCursor(q: Queue, n: nat)
    requires CursorOk(q) && q.cur < |q.hdrs| && AllPlayable(q.hdrs)
    requires LoopsAhead(q)
    ensures CursorOk(Next(q, n).0)
    ensures LoopsAhead(Next(q, n).0)
  {
  }

  lemma NextFrame(q: Queue, n: nat)
    requires q.cur < |q.hdrs| && q.inCur <= |q.hdrs[q.cur].data|
    ensures |Next(q, n).1| == Min(n, q.inCur)
    ensures var r := Next(q, n).0;
            r.hdrs == q.hdrs && r.head == q.head && r.build == q.build && r.completed == q.completed
            && r.buffered == q.buffered + |Next(q, n).1|
  {
  }

  lemma NextKeepsShape(q: Queue, n: nat)
    requires Shape(q) && q.cur < |q.hdrs|
    ensures Shape(Next(q, n).0)
  {
    NextFrame(q, n);
    NextKeepsCursor(q, n);
  }

  lemma EnterLoopCounts(q: Queue)
    requires CursorOk(q) && LoopsAhead(q) && q.cur < |q.hdrs|
    ensures var e := EnterLoop(q);
            CursorOk(e) && (e.loopStart != -1 ==> e.loopDec <= e.loopCount)
            && e.hdrs == q.hdrs && e.cur == q.cur && e.inCur == q.inCur
  {
  }

  lemma ShapeCursor(q: Queue)
    requires Shape(q)
    ensures CursorOk(q) && q.cur <= |q.hdrs| && (q.cur < |q.hdrs| ==> q.inCur <= |q.hdrs[q.cur].data|)
  {
  }

  /** Once a header is queued there is a current one. */
  lemma AddMakesCurrent(q: Queue, data: seq<Byte>, begin: bool, end: bool, loops: nat)
    requires Shape(q) && CanAdd(q, begin)
    ensures var r := Add(q, data, begin, end, loops); r.head <= r.cur < |r.hdrs|
  {
  }
}
