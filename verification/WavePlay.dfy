/** AdvanceCurrentPosition and the callbacks, for headers that stand alone or loop on
    themselves: which bytes count as played, and when a header goes back to the client. */
module WavePlay {
  import opened WaveModel
  import opened WaveStream
  import opened WaveWalk

  /** An unlooped header, or a counted loop of one header. */
  predicate Simple(h: Hdr) {
    h.begin == h.end && (h.begin ==> h.plays < INFINITE)
  }

  ghost predicate AllSimple(hdrs: seq<Hdr>) {
    forall i :: 0 <= i < |hdrs| ==> Simple(hdrs[i])
  }

  /** The bytes a header stands for, all its passes counted. */
  function Total(h: Hdr): nat {
    if h.begin then h.plays * |h.data| else |h.data|
  }

  function SumTotal(hdrs: seq<Hdr>, n: nat): nat
    requires n <= |hdrs|
  {
    if n == 0 then 0 else SumTotal(hdrs, n - 1) + Total(hdrs[n - 1])
  }

  /** Every header is in the loop it is itself, or in none. */
  ghost predicate SelfMarked(hdrs: seq<Hdr>) {
    forall i :: 0 <= i < |hdrs| ==> hdrs[i].loopStart == if hdrs[i].begin then i else -1
  }

  // ---------------------------------------------------------------------------
  // AdvanceCurrentPosition on simple headers
  // ---------------------------------------------------------------------------

  /** A header whose present pass has been played to the end. */
  function FinishPass(h: Hdr): Hdr {
    if !h.begin then Fill(h)
    else if h.loops <= 1 then Fill(h).(loops := 0)
    else h.(loops := h.loops - 1, recorded := 0)
  }

  /** The header after one turn of the loop in AdvanceCurrentPosition. */
  function Turned(h: Hdr, adv: nat): Hdr {
    if PassLeft(h) > adv then h.(recorded := h.recorded + adv) else FinishPass(h)
  }

  /** Whether playing goes on with the same header. */
  predicate Stays(h: Hdr, adv: nat) {
    PassLeft(h) > adv || (h.begin && FinishPass(h).loops != 0)
  }

  // ---------------------------------------------------------------------------
  // Conservation
  // ---------------------------------------------------------------------------

  /** Bytes of the current header handed out so far. */
  function HandedInCur(q: Queue): int {
    if q.cur >= |q.hdrs| then 0
    else
      var len := |q.hdrs[q.cur].data|;
      if q.loopStart == -1 then len - q.inCur
      else (q.hdrs[q.cur].plays - q.loopCount) * len + len - q.inCur
  }

  /** Bytes handed out since the queue was last reset. */
  function Handed(q: Queue): int
    requires q.cur <= |q.hdrs|
  {
    SumTotal(q.hdrs, q.cur) + HandedInCur(q)
  }

  /** Bytes of header `p` played so far. */
  function PlayedIn(h: Hdr): int {
    if h.begin then (h.plays - h.loops) * |h.data| + h.recorded else h.recorded
  }

  /** Bytes played since the queue was last reset, when playing has reached header `p`. */
  function Played(q: Queue, p: nat): int
    requires p <= |q.hdrs|
  {
    SumTotal(q.hdrs, p) + if p < |q.hdrs| then PlayedIn(q.hdrs[p]) else 0
  }

  /** Headers before `p` are finished, those after it untouched. */
  ghost predicate PlayerAt(hdrs: seq<Hdr>, p: nat) {
    && p <= |hdrs|
    && (forall i :: 0 <= i < p ==> PlayedOut(hdrs[i]))
    && (forall i :: p < i < |hdrs| ==> !hdrs[i].done && hdrs[i].recorded == 0 && hdrs[i].loops == hdrs[i].plays)
    && (p < |hdrs| ==> !hdrs[p].done && hdrs[p].recorded < |hdrs[p].data|
                       && (hdrs[p].begin ==> 1 <= hdrs[p].loops <= hdrs[p].plays))
  }

  predicate Conserved(q: Queue, p: nat)
    requires q.cur <= |q.hdrs| && p <= |q.hdrs|
  {
    && 0 <= q.buffered == Handed(q) - Played(q, p)
    && q.completed == Played(q, p) % DWORD_RANGE
  }

  /** The copying side stands in a loop of one header, or outside any loop. */
  predicate CopierOk(q: Queue)
    requires CursorOk(q)
  {
    && (q.loopStart != -1 ==>
          q.loopStart == q.cur && q.hdrs[q.cur].begin && q.loopCount <= q.hdrs[q.cur].plays && q.loopDec == 1)
    && (q.loopStart == -1 && q.cur < |q.hdrs| && q.hdrs[q.cur].begin ==> q.inCur == |q.hdrs[q.cur].data|)
  }

  /** The accounting of every header when playing stands at header `p`, which need not be the
      head yet. */
  ghost predicate WalkInv(q: Queue, p: nat) {
    && CursorOk(q)
    && AllPlayable(q.hdrs)
    && AllSimple(q.hdrs)
    && SelfMarked(q.hdrs)
    && CopierOk(q)
    && PlayerAt(q.hdrs, p)
    && Conserved(q, p)
  }

  ghost predicate PlayInv(q: Queue) { WalkInv(q, q.head) }

  // ---------------------------------------------------------------------------
  // Arithmetic on passes
  // ---------------------------------------------------------------------------

  lemma OnePassMore(a: int, b: int, len: int)
    ensures (a - (b - 1)) * len == (a - b) * len + len
    ensures (a - b) * len == a * len - b * len
  {
  }

  lemma PassesBound(plays: int, left: int, len: int)
    requires 1 <= left <= plays && 0 < len
    ensures 0 <= (plays - left) * len <= plays * len - len
  {
    OnePassMore(plays, left, len);
    assert (plays - left) * len >= 0;
    assert (left - 1) * len >= 0;
  }

  lemma {:induction false} SumTotalMonotone(hdrs: seq<Hdr>, a: nat, b: nat)
    requires a <= b <= |hdrs|
    ensures SumTotal(hdrs, a) <= SumTotal(hdrs, b)
  {
    if a < b {
      SumTotalMonotone(hdrs, a, b - 1);
    }
  }

  lemma {:induction false} SumTotalAgrees(hdrs: seq<Hdr>, hdrs': seq<Hdr>, n: nat)
    requires Agree(hdrs, hdrs', n)
    ensures SumTotal(hdrs, n) == SumTotal(hdrs', n)
  {
    if n > 0 {
      SumTotalAgrees(hdrs, hdrs', n - 1);
    }
  }

  /** The header being played always has bytes left. */
  lemma PlayedInBound(h: Hdr)
    requires h.recorded < |h.data| && (h.begin ==> 1 <= h.loops <= h.plays)
    ensures 0 <= PlayedIn(h) <= Total(h) - (|h.data| - h.recorded)
    ensures PlayedIn(h) < Total(h)
  {
    if h.begin {
      PassesBound(h.plays, h.loops, |h.data|);
    }
  }

  lemma HandedInCurBound(q: Queue)
    requires CursorOk(q) && AllPlayable(q.hdrs) && CopierOk(q) && q.cur < |q.hdrs|
    ensures 0 <= HandedInCur(q) <= Total(q.hdrs[q.cur]) - q.inCur
  {
    var h := q.hdrs[q.cur];
    if q.loopStart != -1 {
      PassesBound(h.plays, q.loopCount, |h.data|);
    } else if h.begin {
      PassesBound(h.plays, 1, |h.data|);
    }
  }

  /** Playing never overtakes copying. */
  lemma PlayerBehindCopier(q: Queue, p: nat)
    requires CursorOk(q) && AllPlayable(q.hdrs) && CopierOk(q)
    requires PlayerAt(q.hdrs, p) && Conserved(q, p)
    ensures p <= q.cur
  {
    if q.cur < p {
      HandedInCurBound(q);
      SumTotalMonotone(q.hdrs, q.cur + 1, p);
      if p < |q.hdrs| {
        PlayedInBound(q.hdrs[p]);
      }
      assert false;
    }
  }

  // ---------------------------------------------------------------------------
  // One turn of the loop in AdvanceCurrentPosition
  // ---------------------------------------------------------------------------

  /** Header `p` is replaced by `h`, which has had `n` more bytes played. */
  function Replace(q: Queue, p: nat, h: Hdr, n: nat): Queue
    requires p < |q.hdrs|
  {
    Count(q.(hdrs := q.hdrs[p := h]), n)
  }

  lemma ReplaceFrame(q: Queue, p: nat, h: Hdr, n: nat)
    requires CursorOk(q) && CopierOk(q) && p < |q.hdrs| && n <= q.buffered
    requires SameMedia(q.hdrs[p], h) && h.loopStart == q.hdrs[p].loopStart
    ensures var r := Replace(q, p, h, n); PlayFrame(q, r) && CursorOk(r) && CopierOk(r) && Handed(r) == Handed(q)
  {
    SumTotalAgrees(q.hdrs, q.hdrs[p := h], q.cur);
  }

  lemma ReplaceKeepsHeaders(q: Queue, p: nat, h: Hdr)
    requires AllPlayable(q.hdrs) && AllSimple(q.hdrs) && SelfMarked(q.hdrs)
    requires p < |q.hdrs| && SameMedia(q.hdrs[p], h) && h.loopStart == q.hdrs[p].loopStart
    ensures AllPlayable(q.hdrs[p := h]) && AllSimple(q.hdrs[p := h]) && SelfMarked(q.hdrs[p := h])
  {
  }

  lemma ModStep(a: nat, b: nat)
    ensures (a % DWORD_RANGE + b) % DWORD_RANGE == (a + b) % DWORD_RANGE
  {
  }

  lemma PlayerStays(hdrs: seq<Hdr>, p: nat, h: Hdr)
    requires PlayerAt(hdrs, p) && p < |hdrs| && SameMedia(hdrs[p], h)
    requires !h.done && h.recorded < |h.data| && (h.begin ==> 1 <= h.loops <= h.plays)
    ensures PlayerAt(hdrs[p := h], p)
  {
  }

  lemma PlayerLeaves(hdrs: seq<Hdr>, p: nat, h: Hdr)
    requires PlayerAt(hdrs, p) && p < |hdrs| && PlayedOut(h) && AllPlayable(hdrs)
    ensures PlayerAt(hdrs[p := h], p + 1)
  {
  }

  /** A turn that leaves playing at the same header. */
  lemma StayInHeader(q: Queue, p: nat, h: Hdr, n: nat)
    requires WalkInv(q, p) && p < |q.hdrs| && n <= q.buffered
    requires SameMedia(q.hdrs[p], h) && h.loopStart == q.hdrs[p].loopStart
    requires !h.done && h.recorded < |h.data| && (h.begin ==> 1 <= h.loops <= h.plays)
    requires PlayedIn(h) == PlayedIn(q.hdrs[p]) + n
    ensures WalkInv(Replace(q, p, h, n), p)
  {
    ReplaceFrame(q, p, h, n);
    ReplaceKeepsHeaders(q, p, h);
    SumTotalAgrees(q.hdrs, q.hdrs[p := h], p);
    PlayedInBound(q.hdrs[p]);
    ModStep(Played(q, p), n);
    PlayerStays(q.hdrs, p, h);
    hide PlayerAt, SumTotal, PlayedIn, Simple, AllSimple, SelfMarked, AllPlayable, CopierOk, CursorOk;
  }

  lemma ConservedOn(q: Queue, r: Queue, p: nat, p': nat, n: nat)
    requires q.cur <= |q.hdrs| && p <= |q.hdrs| && r.cur <= |r.hdrs| && p' <= |r.hdrs| && Conserved(q, p)
    requires 0 <= Played(q, p) && n <= q.buffered
    requires r.buffered == q.buffered - n && r.completed == (q.completed + n) % DWORD_RANGE
    requires Handed(r) == Handed(q) && Played(r, p') == Played(q, p) + n
    ensures Conserved(r, p')
  {
    ModStep(Played(q, p), n);
  }

  lemma PlayedLeaves(q: Queue, p: nat, h: Hdr, n: nat)
    requires PlayerAt(q.hdrs, p) && p < |q.hdrs| && Total(h) == PlayedIn(q.hdrs[p]) + n
    ensures 0 <= Played(q, p) && Played(Replace(q, p, h, n), p + 1) == Played(q, p) + n
  {
    var r := Replace(q, p, h, n);
    SumTotalAgrees(q.hdrs, r.hdrs, p);
    PlayedInBound(q.hdrs[p]);
    assert p + 1 < |q.hdrs| ==> PlayedIn(r.hdrs[p + 1]) == 0;
  }

  /** A turn that finishes header `p` for good. */
  lemma LeaveHeader(q: Queue, p: nat, h: Hdr, n: nat)
    requires WalkInv(q, p) && p < |q.hdrs| && n <= q.buffered
    requires SameMedia(q.hdrs[p], h) && h.loopStart == q.hdrs[p].loopStart && PlayedOut(h)
    requires Total(h) == PlayedIn(q.hdrs[p]) + n
    ensures WalkInv(Replace(q, p, h, n), p + 1)
  {
    ReplaceFrame(q, p, h, n);
    ReplaceKeepsHeaders(q, p, h);
    PlayerLeaves(q.hdrs, p, h);
    PlayedLeaves(q, p, h, n);
    ConservedOn(q, Replace(q, p, h, n), p, p + 1, n);
    hide PlayerAt, Conserved, Played, Simple, AllSimple, SelfMarked, AllPlayable, CopierOk, CursorOk, Handed;
  }

  lemma FinishPassAccounting(h: Hdr)
    requires Playable(h) && Simple(h) && !h.done && h.recorded < |h.data|
    requires h.begin ==> 1 <= h.loops <= h.plays
    ensures var f := FinishPass(h);
            && SameMedia(h, f) && f.loopStart == h.loopStart
            && if h.begin && f.loops != 0
               then !f.done && f.recorded == 0 && 1 <= f.loops <= f.plays && PlayedIn(f) == PlayedIn(h) + PassLeft(h)
               else f.done && Total(f) == PlayedIn(h) + PassLeft(h)
  {
    if h.begin {
      OnePassMore(h.plays, h.loops, |h.data|);
    }
  }

  lemma SimpleWalkable(hdrs: seq<Hdr>)
    requires AllPlayable(hdrs) && SelfMarked(hdrs)
    ensures Walkable(hdrs)
  {
  }

  /** One turn changes the header at hand and no other. */
  lemma TurnOfSimple(q: Queue, p: nat, adv: nat)
    requires p < |q.hdrs| && Playable(q.hdrs[p]) && Simple(q.hdrs[p])
    requires q.hdrs[p].loopStart == if q.hdrs[p].begin then p else -1
    requires q.hdrs[p].begin ==> 1 <= q.hdrs[p].loops <= q.hdrs[p].plays
    ensures var h := q.hdrs[p];
            var n := Min(PassLeft(h), adv);
            Turn(q, p, adv) == (Replace(q, p, Turned(h, adv), n), if Stays(h, adv) then p else p + 1, adv - n)
  {
    var h := q.hdrs[p];
    if PassLeft(h) <= adv && h.begin {
      assert CountDown(h).loops == h.loops - 1;
      assert PassDone(q.hdrs, p) == q.hdrs[p := FinishPass(h)];
    }
  }

  lemma TurnPlays(q: Queue, p: nat, adv: nat)
    requires WalkInv(q, p) && p < |q.hdrs| && 0 < adv <= q.buffered
    ensures -1 <= q.hdrs[p].loopStart < |q.hdrs|
    ensures var (s, e, left) := Turn(q, p, adv);
            && p <= e && left < adv && s.buffered == q.buffered - (adv - left)
            && WalkInv(s, e) && PlayFrame(q, s)
  {
    var h := q.hdrs[p];
    var t := Turned(h, adv);
    TurnOfSimple(q, p, adv);
    hide Turn;
    if PassLeft(h) > adv {
      ReplaceFrame(q, p, t, adv);
      StayInHeader(q, p, t, adv);
    } else {
      FinishPassAccounting(h);
      ReplaceFrame(q, p, t, PassLeft(h));
      if Stays(h, adv) {
        StayInHeader(q, p, t, PassLeft(h));
      } else {
        LeaveHeader(q, p, t, PassLeft(h));
      }
    }
  }

  lemma NothingBuffersAtEnd(q: Queue)
    requires WalkInv(q, |q.hdrs|)
    ensures q.buffered == 0
  {
    HandedAtEnd(q);
  }

  /** The loop as a whole: every byte asked for is played, and nothing else changes. */
  lemma {:induction false} WalkPlays(q: Queue, p: nat, adv: nat)
    requires WalkInv(q, p) && adv <= q.buffered
    ensures Walkable(q.hdrs)
    ensures var (r, e) := Walk(q, p, adv);
            p <= e && WalkInv(r, e) && PlayFrame(q, r) && r.buffered == q.buffered - adv
    decreases adv
  {
    SimpleWalkable(q.hdrs);
    if p == |q.hdrs| {
      NothingBuffersAtEnd(q);
    } else if adv > 0 {
      hide WalkInv, Turn, PlayFrame;
      assert WalkInv(q, p);
      var (s, e, left) := Turn(q, p, adv);
      TurnPlays(q, p, adv);
      TurnGoesOn(q, p, adv);
      WalkPlays(s, e, left);
      PlayFrameTransitive(q, s, Walk(s, e, left).0);
    }
  }

  lemma HandedAtEnd(q: Queue)
    requires CursorOk(q) && AllPlayable(q.hdrs) && CopierOk(q)
    ensures Handed(q) <= SumTotal(q.hdrs, |q.hdrs|)
  {
    if q.cur < |q.hdrs| {
      HandedInCurBound(q);
      SumTotalMonotone(q.hdrs, q.cur + 1, |q.hdrs|);
    }
  }

  // ---------------------------------------------------------------------------
  // The callbacks
  // ---------------------------------------------------------------------------

  lemma AdvancePlays(q: Queue, adv: nat)
    requires PlayInv(q)
    ensures Walkable(q.hdrs)
    ensures var r := Advance(q, adv);
            && PlayInv(r)
            && r.buffered == q.buffered - Min(adv, q.buffered)
            && q.head <= r.head <= Segment(q)
            && PlayFrame(q, r.(head := q.head))
  {
    hide Walk, AllPlayable, AllSimple;
    SimpleWalkable(q.hdrs);
    if q.buffered > 0 {
      var n := Min(adv, q.buffered);
      WalkPlays(q, q.head, n);
      var (w, e) := Walk(q, q.head, n);
      PlayerBehindCopier(w, e);
      RemoveDoneStops(w, e);
      assert Advance(q, adv) == w.(head := e);
    }
  }

  /** Conservation: what has been played and what is still buffered are together the
      bytes handed out since the last reset; the driver's position counter is the played
      part, modulo its 32 bits. */
  lemma BytesConserved(q: Queue)
    requires PlayInv(q)
    ensures Played(q, q.head) + q.buffered == Handed(q)
    ensures q.completed == Played(q, q.head) % DWORD_RANGE
    ensures 0 <= Played(q, q.head)
    ensures (q.completed + q.buffered) % DWORD_RANGE == Handed(q) % DWORD_RANGE
  {
    if q.head < |q.hdrs| {
      PlayedInBound(q.hdrs[q.head]);
    }
    ModStep(Played(q, q.head), q.buffered);
  }

  /** A header has been handed back exactly when the bytes played cover it and every
      header queued before it, each counted with all its passes. */
  lemma CallbackExactlyWhenPlayed(q: Queue, i: nat)
    requires PlayInv(q) && i < |q.hdrs|
    ensures i < q.head <==> SumTotal(q.hdrs, i + 1) <= Played(q, q.head)
  {
    if q.head < |q.hdrs| {
      PlayedInBound(q.hdrs[q.head]);
    }
    if i < q.head {
      SumTotalMonotone(q.hdrs, i + 1, q.head);
    } else {
      SumTotalMonotone(q.hdrs, q.head + 1, i + 1);
    }
  }

  /** IsEmpty implies IsDone: once everything queued has been copied and played, every
      header has been handed back. */
  lemma EmptyIsDone(q: Queue)
    requires PlayInv(q)
    ensures q.cur == |q.hdrs| && q.buffered <= 0 <==> q.head == |q.hdrs|
  {
    if q.cur == |q.hdrs| && q.buffered <= 0 && q.head < |q.hdrs| {
      PlayedInBound(q.hdrs[q.head]);
      SumTotalMonotone(q.hdrs, q.head + 1, |q.hdrs|);
    }
    if q.head == |q.hdrs| {
      HandedAtEnd(q);
    }
  }

  /** The driver's assertion that an unlooped header is never completed while it is still
      being copied out. */
  lemma CompletedIsNotCurrent(q: Queue, p: nat, adv: nat)
    requires WalkInv(q, p) && p < |q.hdrs| && adv <= q.buffered
    requires !q.hdrs[p].begin && PassLeft(q.hdrs[p]) <= adv
    ensures p != q.cur
  {
  }
}
