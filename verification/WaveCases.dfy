/** Runs that show where the wave header queue falls short of what it is for. */
module WaveCases {
  import opened WaveModel
  import opened WaveStream
  import opened WaveWalk
  import opened WaveCost
  import opened WavePlay
  import opened WaveRuns

  lemma {:induction false} ReachesThen(from: World, ops: seq<Op>, w: World, op: Op)
    requires RunInv(from) && Reaches(from, ops, w)
    requires RunInv(w) && Legal(w, op)
    ensures Reaches(from, ops + [op], Step(w, op))
    decreases |ops|
  {
    if ops == [] {
      StepKeepsRunInv(from, op);
      assert [op][1..] == [];
    } else {
      StepKeepsRunInv(from, ops[0]);
      assert (ops + [op])[1..] == ops[1..] + [op];
      ReachesThen(Step(from, ops[0]), ops[1..], w, op);
    }
  }

  /** One more step of a run. */
  lemma Then(ops: seq<Op>, w: World, op: Op)
    requires Run(ops, w)
    ensures RunInv(w)
    ensures Legal(w, op) ==> Run(ops + [op], Step(w, op)) && RunInv(Step(w, op))
  {
    EveryRunKeepsInv(ops, w);
    if Legal(w, op) {
      ResetKeepsRunInv(0);
      ReachesThen(NewWorld(0), ops, w, op);
      StepKeepsRunInv(w, op);
    }
  }

  lemma Beginning()
    ensures Run([], NewWorld(0))
  {
    ResetKeepsRunInv(0);
  }

  lemma ThenAdd(ops: seq<Op>, w: World, data: seq<Byte>, begin: bool, end: bool, loops: nat)
    requires Run(ops, w) && Playable(NewHdr(data, begin, end, loops)) && CanAdd(w.q, begin)
    ensures Run(ops + [AddOp(data, begin, end, loops)],
                w.(q := Add(w.q, data, begin, end, loops),
                   simple := w.simple && Simple(NewHdr(data, begin, end, loops)),
                   whole := w.whole && !TooLate(w.q, begin)))
  {
    hide Run, RunInv, Add;
    Then(ops, w, AddOp(data, begin, end, loops));
  }

  lemma ThenPull(ops: seq<Op>, w: World, n: nat)
    requires Run(ops, w) && w.q.cur < |w.q.hdrs| && w.q.inCur <= |w.q.hdrs[w.q.cur].data|
    ensures Run(ops + [PullOp(n)],
                w.(q := Next(w.q, n).0, out := w.out + Next(w.q, n).1))
  {
    hide Run, RunInv, Next;
    Then(ops, w, PullOp(n));
  }

  /** The call hands back nothing that is yet to be copied. */
  ghost predicate HeadStays(q: Queue, n: nat)
    requires q.head <= |q.hdrs| && Walkable(q.hdrs)
  {
    Advance(q, n).head <= Segment(q)
  }

  lemma ThenPlay(ops: seq<Op>, w: World, n: nat)
    requires Run(ops, w) && w.q.head <= |w.q.hdrs| && Walkable(w.q.hdrs) && HeadStays(w.q, n)
    ensures Run(ops + [PlayOp(n)], w.(q := Advance(w.q, n), whole := w.whole && Untouched(Advance(w.q, n))))
  {
    hide Run, Advance, Behind, Untouched, CountsAhead, Ready, Shape;
    Then(ops, w, PlayOp(n));
    BehindIs(w.q, n);
    if w.whole {
      UntouchedIff(w.q, n);
    }
  }

  /** A call that comes to its end, or to the end of the list, in one turn, or in two. */
  lemma OneTurn(q: Queue, p: nat, adv: nat)
    requires Walkable(q.hdrs) && p < |q.hdrs| && 0 < adv && (Turn(q, p, adv).2 == 0 || Turn(q, p, adv).1 == |q.hdrs|)
    ensures Walk(q, p, adv) == (Turn(q, p, adv).0, Turn(q, p, adv).1)
  {
    TurnFrame(q, p, adv);
  }

  lemma TwoTurns(q: Queue, p: nat, adv: nat)
    requires Walkable(q.hdrs) && p < |q.hdrs| && 0 < adv
    requires var (s, e, left) := Turn(q, p, adv);
             && 0 < left && e < |s.hdrs| && -1 <= s.hdrs[e].loopStart < |s.hdrs|
             && (Turn(s, e, left).2 == 0 || Turn(s, e, left).1 == |s.hdrs|)
    ensures var (s, e, left) := Turn(q, p, adv);
            Walk(q, p, adv) == (Turn(s, e, left).0, Turn(s, e, left).1)
  {
    hide Turn;
    var (s, e, left) := Turn(q, p, adv);
    TurnFrame(q, p, adv);
    TurnGoesOn(q, p, adv);
    OneTurn(s, e, left);
  }

  // ---------------------------------------------------------------------------
  // A loop of one pass, played before it is ended
  // ---------------------------------------------------------------------------

  function OpenHdr(done: bool): Hdr { Hdr([7], true, false, 1, 1, if done then 1 else 0, done, 0) }

  lemma OpenPlayed()
    ensures var q := Queue([OpenHdr(false)], 0, 1, 0, -1, 0, 1, 0, 1, 0, 0);
            && Walkable(q.hdrs) && Advance(q, 1) == Queue([OpenHdr(true)], 1, 1, 0, -1, 0, 1, 0, 0, 1, 0)
            && HeadStays(q, 1) && Untouched(Advance(q, 1)) && !CanAdd(Advance(q, 1), true)
  {
    var q := Queue([OpenHdr(false)], 0, 1, 0, -1, 0, 1, 0, 1, 0, 0);
    assert PassDone(q.hdrs, 0) == [OpenHdr(true)];
    assert Turn(q, 0, 1) == (Queue([OpenHdr(true)], 0, 1, 0, -1, 0, 1, 0, 0, 1, 0), 1, 0);
    OneTurn(q, 0, 1);
  }

  lemma OpenPulled()
    ensures Add(EmptyQueue(0), [7], true, false, 1) == Queue([OpenHdr(false)], 0, 0, 1, -1, 0, 0, 0, 0, 0, 0)
    ensures Next(Queue([OpenHdr(false)], 0, 0, 1, -1, 0, 0, 0, 0, 0, 0), 1) ==
            (Queue([OpenHdr(false)], 0, 1, 0, -1, 0, 1, 0, 1, 0, 0), [7])
  {
    assert OpenHdr(false).data[0..1] == [7];
  }

  /** A header that begins a loop of one pass is queued, pulled and played.  It goes back to
      the client, the loop stays open, and the next header that begins a loop finds no tail
      to end it at. */
  lemma TailIsLost() returns (ops: seq<Op>, w: World)
    ensures Run(ops, w) && w.q.head == |w.q.hdrs| == 1 && !CanAdd(w.q, true)
  {
    hide Run, Advance, Next, Walkable, HeadStays, Untouched, Add;
    Beginning();
    OpenPulled();
    w := NewWorld(0);
    assert Playable(NewHdr([7], true, false, 1));
    ThenAdd([], w, [7], true, false, 1);
    ops, w := [] + [AddOp([7], true, false, 1)],
      World(Queue([OpenHdr(false)], 0, 0, 1, -1, 0, 0, 0, 0, 0, 0), [], false, true);
    ThenPull(ops, w, 1);
    ops, w := ops + [PullOp(1)],
      World(Queue([OpenHdr(false)], 0, 1, 0, -1, 0, 1, 0, 1, 0, 0), [] + [7], false, true);
    OpenPlayed();
    ThenPlay(ops, w, 1);
    ops, w := ops + [PlayOp(1)], w.(q := Advance(w.q, 1));
  }

  // ---------------------------------------------------------------------------
  // A loop of two headers that is never played out
  // ---------------------------------------------------------------------------

  /** Two headers of one byte each, looped twice. */
  const PAIR: seq<Hdr> := [Hdr([1], true, false, 2, 2, 0, false, 0), Hdr([2], false, true, 0, 0, 0, false, 0)]

  /** Passes made over a loop of two. */
  function Made(loopStart: int, count: nat): nat { if loopStart == -1 || 2 < count then 0 else 2 - count }

  function PairQueue(cur: nat, inCur: nat, loopStart: int, count: nat, dec: nat, buffered: int, completed: nat): Queue {
    Queue(PAIR, 0, cur, inCur, loopStart, count, dec, -1, buffered, completed, Made(loopStart, count))
  }

  lemma PairQueued()
    ensures var q := Add(EmptyQueue(0), [1], true, false, 2);
            Add(q, [2], false, true, 0) == PairQueue(0, 1, -1, 0, 0, 0, 0) && !TooLate(q, false)
  {
    var q := Add(EmptyQueue(0), [1], true, false, 2);
    assert q == Queue([PAIR[0]], 0, 0, 1, -1, 0, 0, 0, 0, 0, 0);
    assert [PAIR[0]] + [PAIR[1]] == PAIR;
  }

  lemma PairPulledFirst(count: nat, buffered: nat)
    requires 1 <= count <= 2
    ensures Next(PairQueue(0, 1, 0, count, 1, buffered, 0), 1) == (PairQueue(1, 1, 0, count, 1, buffered + 1, 0), [1])
    ensures count == 2 ==> Next(PairQueue(0, 1, -1, 0, 0, 0, 0), 1) == (PairQueue(1, 1, 0, 2, 1, 1, 0), [1])
  {
    assert PAIR[0].data[0..1] == [1];
  }

  lemma PairPulledSecond(count: nat, buffered: nat)
    requires 1 <= count <= 2
    ensures Next(PairQueue(1, 1, 0, count, 1, buffered, 0), 1) ==
            (if count == 2 then PairQueue(0, 1, 0, 1, 1, buffered + 1, 0)
              else PairQueue(2, 0, -1, 0, 1, buffered + 1, 0), [2])
  {
    assert PAIR[1].data[0..1] == [2];
  }

  lemma PairPulled()
    ensures Next(PairQueue(0, 1, -1, 0, 0, 0, 0), 1) == (PairQueue(1, 1, 0, 2, 1, 1, 0), [1])
    ensures Next(PairQueue(1, 1, 0, 2, 1, 1, 0), 1) == (PairQueue(0, 1, 0, 1, 1, 2, 0), [2])
    ensures Next(PairQueue(0, 1, 0, 1, 1, 2, 0), 1) == (PairQueue(1, 1, 0, 1, 1, 3, 0), [1])
    ensures Next(PairQueue(1, 1, 0, 1, 1, 3, 0), 1) == (PairQueue(2, 0, -1, 0, 1, 4, 0), [2])
  {
    hide Next;
    PairPulledFirst(2, 0);
    PairPulledSecond(2, 1);
    PairPulledFirst(1, 2);
    PairPulledSecond(1, 3);
  }

  /** A call for one byte plays the first header again, whatever was played before. */
  lemma PairPlayed(buffered: nat, completed: nat)
    requires 1 <= buffered && completed + 1 < DWORD_RANGE
    ensures var q := PairQueue(2, 0, -1, 0, 1, buffered, completed);
            && Walkable(q.hdrs) && Advance(q, 1) == PairQueue(2, 0, -1, 0, 1, buffered - 1, completed + 1)
            && HeadStays(q, 1) && Untouched(q)
  {
    var q := PairQueue(2, 0, -1, 0, 1, buffered, completed);
    assert PassDone(q.hdrs, 0) == PAIR;
    OneTurn(q, 0, 1);
  }

  /** Once all of it has been pulled and four bytes have been played, one by one, nothing is
      buffered or left to hand out, and yet no header has gone back: the queue is empty but
      not done. */
  lemma PairIsStuck() returns (ops: seq<Op>, w: World)
    ensures Run(ops, w) && w.whole
    ensures w.q.cur == |w.q.hdrs| && w.q.buffered <= 0 && w.q.head < |w.q.hdrs|
  {
    hide Run, Advance, Next, Walkable, HeadStays, Untouched, Add;
    var w0 := NewWorld(0);
    Beginning();
    PairQueued();
    PairPulled();
    assert Playable(NewHdr([1], true, false, 2)) && Playable(NewHdr([2], false, true, 0));
    ThenAdd([], w0, [1], true, false, 2);
    ops, w := [] + [AddOp([1], true, false, 2)], World(Add(w0.q, [1], true, false, 2), [], false, true);
    ThenAdd(ops, w, [2], false, true, 0);
    ops, w := ops + [AddOp([2], false, true, 0)], World(PairQueue(0, 1, -1, 0, 0, 0, 0), [], false, true);
    ThenPull(ops, w, 1);
    ops, w := ops + [PullOp(1)], World(PairQueue(1, 1, 0, 2, 1, 1, 0), w.out + [1], false, true);
    ThenPull(ops, w, 1);
    ops, w := ops + [PullOp(1)], World(PairQueue(0, 1, 0, 1, 1, 2, 0), w.out + [2], false, true);
    ThenPull(ops, w, 1);
    ops, w := ops + [PullOp(1)], World(PairQueue(1, 1, 0, 1, 1, 3, 0), w.out + [1], false, true);
    ThenPull(ops, w, 1);
    ops, w := ops + [PullOp(1)], World(PairQueue(2, 0, -1, 0, 1, 4, 0), w.out + [2], false, true);
    for k := 0 to 4
      invariant Run(ops, w) && w.whole && w.q == PairQueue(2, 0, -1, 0, 1, 4 - k, k)
    {
      PairPlayed(4 - k, k);
      PairPlayed(5, k + 1);
      ThenPlay(ops, w, 1);
      assert Untouched(PairQueue(2, 0, -1, 0, 1, 3 - k, k + 1)) by { PairUntouched(3 - k, k + 1); }
      ops, w := ops + [PlayOp(1)], w.(q := PairQueue(2, 0, -1, 0, 1, 3 - k, k + 1));
    }
  }

  lemma PairUntouched(buffered: int, completed: nat)
    ensures Untouched(PairQueue(2, 0, -1, 0, 1, buffered, completed))
  {
  }

  // ---------------------------------------------------------------------------
  // A loop that is copied out before it is queued whole
  // ---------------------------------------------------------------------------

  function Late(cur: nat, inCur: nat, loopStart: int, count: nat, dec: nat, buffered: int): Queue {
    Queue([PAIR[0]], 0, cur, inCur, loopStart, count, dec, 0, buffered, 0, Made(loopStart, count))
  }

  lemma LateQueued()
    ensures Add(EmptyQueue(0), [1], true, false, 2) == Late(0, 1, -1, 0, 0, 0)
    ensures Next(Late(0, 1, -1, 0, 0, 0), 1) == (Late(0, 1, 0, 1, 1, 1), [1])
    ensures Next(Late(0, 1, 0, 1, 1, 1), 1) == (Late(1, 0, -1, 0, 1, 2), [1])
    ensures TooLate(Late(1, 0, -1, 0, 1, 2), false)
  {
    assert PAIR[0].data[0..1] == [1];
  }

  lemma LateEnded()
    ensures Add(Late(1, 0, -1, 0, 1, 2), [2], false, true, 0) == PairQueue(1, 1, -1, 0, 1, 2, 0)
    ensures Next(PairQueue(1, 1, -1, 0, 1, 2, 0), 1) == (PairQueue(2, 0, -1, 0, 1, 3, 0), [2])
  {
    assert [PAIR[0]] + [PAIR[1]] == PAIR;
    assert PAIR[1].data[0..1] == [2];
  }

  lemma PairMeans(k: nat)
    ensures Meaning(PAIR, k) == [1, 2, 1, 2]
  {
    LoopEndIs(PAIR, 0, 1);
    assert Data(PAIR, 0, 2) == [1, 2] by {
      assert Data(PAIR, 0, 1) == [] + [1];
    }
    RepeatTwice([1, 2]);
    assert Expand(PAIR, 2, k) == [];
  }

  lemma RepeatTwice(s: seq<Byte>)
    ensures Repeat(s, 2) == s + s
  {
    assert Repeat(s, 1) == [] + s;
  }

  /** The first header of the loop of two is pulled twice, as if it were the whole loop, before
      the second one is queued: 1 1 2 is handed out for 1 2 1 2. */
  lemma LateHeaderIsNotRepeated() returns (ops: seq<Op>, w: World)
    ensures Run(ops, w) && !w.whole && w.q.cur == |w.q.hdrs|
    ensures w.out == [1, 1, 2] && forall k: nat :: Meaning(w.q.hdrs, k) == [1, 2, 1, 2]
  {
    hide Run, Next, Add, Meaning;
    var w0 := NewWorld(0);
    Beginning();
    LateQueued();
    LateEnded();
    forall k: nat {
      PairMeans(k);
    }
    assert Playable(NewHdr([1], true, false, 2)) && Playable(NewHdr([2], false, true, 0));
    ThenAdd([], w0, [1], true, false, 2);
    ops, w := [] + [AddOp([1], true, false, 2)], World(Late(0, 1, -1, 0, 0, 0), [], false, true);
    ThenPull(ops, w, 1);
    ops, w := ops + [PullOp(1)], World(Late(0, 1, 0, 1, 1, 1), w.out + [1], false, true);
    ThenPull(ops, w, 1);
    ops, w := ops + [PullOp(1)], World(Late(1, 0, -1, 0, 1, 2), w.out + [1], false, true);
    ThenAdd(ops, w, [2], false, true, 0);
    ops, w := ops + [AddOp([2], false, true, 0)], World(PairQueue(1, 1, -1, 0, 1, 2, 0), w.out, false, false);
    ThenPull(ops, w, 1);
    ops, w := ops + [PullOp(1)], World(PairQueue(2, 0, -1, 0, 1, 3, 0), w.out + [2], false, false);
  }

  // ---------------------------------------------------------------------------
  // Playing that overtakes copying
  // ---------------------------------------------------------------------------

  /** One byte and three bytes, looped twice; `loops` passes to go, `done` bytes of the second
      header counted as played. */
  function Long(loops: nat, done: nat): seq<Hdr> {
    [Hdr([1], true, false, 2, loops, 0, false, 0), Hdr([2, 3, 4], false, true, 0, 0, done, false, 0)]
  }

  function LongQueue(hdrs: seq<Hdr>, cur: nat, inCur: nat, loopStart: int, count: nat, dec: nat, buffered: int,
                     completed: nat): Queue
  {
    Queue(hdrs, 0, cur, inCur, loopStart, count, dec, -1, buffered, completed, Made(loopStart, count))
  }

  lemma LongQueued()
    ensures var q := Add(EmptyQueue(0), [1], true, false, 2);
            Add(q, [2, 3, 4], false, true, 0) == LongQueue(Long(2, 0), 0, 1, -1, 0, 0, 0, 0) && !TooLate(q, false)
  {
    var q := Add(EmptyQueue(0), [1], true, false, 2);
    assert q == Queue([Long(2, 0)[0]], 0, 0, 1, -1, 0, 0, 0, 0, 0, 0);
    assert [Long(2, 0)[0]] + [Long(2, 0)[1]] == Long(2, 0);
  }

  lemma LongPulledFirst(count: nat, buffered: nat)
    requires 1 <= count <= 2
    ensures var h := Long(2, 0);
            && Next(LongQueue(h, 0, 1, 0, count, 1, buffered, 0), 1) ==
                 (LongQueue(h, 1, 3, 0, count, 1, buffered + 1, 0), [1])
            && (count == 2 ==> Next(LongQueue(h, 0, 1, -1, 0, 0, 0, 0), 1) == (LongQueue(h, 1, 3, 0, 2, 1, 1, 0), [1]))
  {
    assert Long(2, 0)[0].data[0..1] == [1];
  }

  lemma LongPulledSecond()
    ensures var h := Long(2, 0);
            && Next(LongQueue(h, 1, 3, 0, 2, 1, 1, 0), 3) == (LongQueue(h, 0, 1, 0, 1, 1, 4, 0), [2, 3, 4])
            && Next(LongQueue(h, 1, 3, 0, 1, 1, 5, 0), 2) == (LongQueue(h, 1, 1, 0, 1, 1, 7, 0), [2, 3])
  {
    assert Long(2, 0)[1].data[0..3] == [2, 3, 4];
    assert Long(2, 0)[1].data[0..2] == [2, 3];
  }

  /** Seven bytes are pulled. */
  lemma LongPulled()
    ensures var h := Long(2, 0);
            && Next(LongQueue(h, 0, 1, -1, 0, 0, 0, 0), 1) == (LongQueue(h, 1, 3, 0, 2, 1, 1, 0), [1])
            && Next(LongQueue(h, 1, 3, 0, 2, 1, 1, 0), 3) == (LongQueue(h, 0, 1, 0, 1, 1, 4, 0), [2, 3, 4])
            && Next(LongQueue(h, 0, 1, 0, 1, 1, 4, 0), 1) == (LongQueue(h, 1, 3, 0, 1, 1, 5, 0), [1])
            && Next(LongQueue(h, 1, 3, 0, 1, 1, 5, 0), 2) == (LongQueue(h, 1, 1, 0, 1, 1, 7, 0), [2, 3])
  {
    hide Next;
    LongPulledFirst(2, 0);
    LongPulledFirst(1, 4);
    LongPulledSecond();
  }

  /** The first call for three bytes leaves the second header with one to play. */
  lemma LongPlayedFirst()
    ensures var q := LongQueue(Long(2, 0), 1, 1, 0, 1, 1, 7, 0);
            && Walkable(q.hdrs) && Advance(q, 3) == LongQueue(Long(2, 2), 1, 1, 0, 1, 1, 4, 3)
            && HeadStays(q, 3) && Untouched(Advance(q, 3))
  {
    var q := LongQueue(Long(2, 0), 1, 1, 0, 1, 1, 7, 0);
    assert PassDone(q.hdrs, 0) == q.hdrs;
    var s := Turn(q, 0, 3).0;
    assert s == LongQueue(Long(2, 0), 1, 1, 0, 1, 1, 6, 1);
    assert Turn(s, 1, 2).0.hdrs == Long(2, 2);
    TwoTurns(q, 0, 3);
  }

  /** The next call begins at the first header again, and counts a whole pass for two. */
  lemma LongPlayedSecond()
    ensures var q := LongQueue(Long(2, 2), 1, 1, 0, 1, 1, 4, 3);
            && Walkable(q.hdrs) && Advance(q, 2) == LongQueue(Long(1, 2), 1, 1, 0, 1, 1, 2, 5)
            && HeadStays(q, 2) && Untouched(Advance(q, 2))
  {
    var q := LongQueue(Long(2, 2), 1, 1, 0, 1, 1, 4, 3);
    assert PassDone(q.hdrs, 0) == q.hdrs;
    var s := Turn(q, 0, 2).0;
    assert s == LongQueue(Long(2, 2), 1, 1, 0, 1, 1, 3, 4);
    assert PassDone(s.hdrs, 1) == Long(1, 2);
    TwoTurns(q, 0, 2);
  }

  /** Two bytes more, and both headers are played out. */
  lemma LongPlayedOut()
    ensures var q := LongQueue(Long(1, 2), 1, 1, 0, 1, 1, 2, 5);
            Walkable(q.hdrs) && Advance(q, 2).head == 2 && !HeadStays(q, 2)
  {
    var q := LongQueue(Long(1, 2), 1, 1, 0, 1, 1, 2, 5);
    var s := Turn(q, 0, 2).0;
    assert s.hdrs == [Fill(q.hdrs[0]), q.hdrs[1]] && s.buffered == 1;
    TwoTurns(q, 0, 2);
    var r := Turn(s, 1, 1).0;
    assert r.hdrs[0].done && r.hdrs[1].done;
    RemoveDoneStops(r, 2);
  }

  /** With one byte of the loop still to be copied out, two more bytes played hand both
      headers back: playing has overtaken copying, and the driver's assertion that the head
      is not the current header fails. */
  lemma PlayingOvertakes() returns (ops: seq<Op>, w: World)
    ensures Run(ops, w) && w.whole && w.q.cur == 1 && w.q.inCur == 1 && 2 <= w.q.buffered
    ensures RunInv(w) && !Legal(w, PlayOp(2)) && Walkable(w.q.hdrs) && w.q.cur < Advance(w.q, 2).head
  {
    hide Run, Advance, Next, Walkable, HeadStays, Untouched, Add, RunInv;
    var w0 := NewWorld(0);
    Beginning();
    LongQueued();
    LongPulled();
    assert Playable(NewHdr([1], true, false, 2)) && Playable(NewHdr([2, 3, 4], false, true, 0));
    ThenAdd([], w0, [1], true, false, 2);
    ops, w := [] + [AddOp([1], true, false, 2)], World(Add(w0.q, [1], true, false, 2), [], false, true);
    ThenAdd(ops, w, [2, 3, 4], false, true, 0);
    var h := Long(2, 0);
    ops, w := ops + [AddOp([2, 3, 4], false, true, 0)], World(LongQueue(h, 0, 1, -1, 0, 0, 0, 0), [], false, true);
    ThenPull(ops, w, 1);
    ops, w := ops + [PullOp(1)], World(LongQueue(h, 1, 3, 0, 2, 1, 1, 0), w.out + [1], false, true);
    ThenPull(ops, w, 3);
    ops, w := ops + [PullOp(3)], World(LongQueue(h, 0, 1, 0, 1, 1, 4, 0), w.out + [2, 3, 4], false, true);
    ThenPull(ops, w, 1);
    ops, w := ops + [PullOp(1)], World(LongQueue(h, 1, 3, 0, 1, 1, 5, 0), w.out + [1], false, true);
    ThenPull(ops, w, 2);
    ops, w := ops + [PullOp(2)], World(LongQueue(h, 1, 1, 0, 1, 1, 7, 0), w.out + [2, 3], false, true);
    LongPlayedFirst();
    ThenPlay(ops, w, 3);
    ops, w := ops + [PlayOp(3)], w.(q := LongQueue(Long(2, 2), 1, 1, 0, 1, 1, 4, 3));
    LongPlayedSecond();
    ThenPlay(ops, w, 2);
    ops, w := ops + [PlayOp(2)], w.(q := LongQueue(Long(1, 2), 1, 1, 0, 1, 1, 2, 5));
    LongPlayedOut();
    Then(ops, w, PlayOp(2));
  }
}
