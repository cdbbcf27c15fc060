/** Every run of the queue's operations: what is handed out is the queued stream as long as
    playing leaves alone what is yet to be copied, bytes are conserved, and headers that
    stand alone or loop on themselves are called back in order, each when it is played. */
module WaveRuns {
  import opened WaveModel
  import opened WaveStream
  import opened WaveWalk
  import opened WaveCost
  import opened WavePlay

  // ---------------------------------------------------------------------------
  // GetNextBlock keeps the accounting
  // ---------------------------------------------------------------------------

  lemma EnterLoopKeepsPlay(q: Queue)
    requires PlayInv(q) && LoopsAhead(q) && Untouched(q) && q.cur < |q.hdrs|
    ensures var e := EnterLoop(q);
            && PlayInv(e) && Handed(e) == Handed(q)
            && (e.loopStart == -1 ==> !e.hdrs[e.cur].begin)
            && e.hdrs == q.hdrs && e.head == q.head && e.cur == q.cur && e.inCur == q.inCur
            && e.buffered == q.buffered && e.completed == q.completed
  {
  }

  lemma FinishKeepsCopier(q: Queue)
    requires CursorOk(q) && AllPlayable(q.hdrs) && AllSimple(q.hdrs) && CopierOk(q) && q.cur < |q.hdrs|
    requires q.loopStart == -1 ==> !q.hdrs[q.cur].begin
    ensures CursorOk(Finish(q)) && CopierOk(Finish(q))
    ensures Handed(Finish(q)) == Handed(q) + q.inCur
  {
    RollOverKeepsCursor(q);
    OnePassMore(q.hdrs[q.cur].plays, q.loopCount, |q.hdrs[q.cur].data|);
  }

  lemma TakeKeepsPlay(q: Queue, k: nat)
    requires PlayInv(q) && q.cur < |q.hdrs| && k <= q.inCur
    requires q.loopStart == -1 ==> !q.hdrs[q.cur].begin
    ensures PlayInv(Take(q, k)) && Handed(Take(q, k)) == Handed(q) + k
  {
    if k == q.inCur {
      FinishKeepsCopier(q);
    }
  }

  lemma NextKeepsPlay(q: Queue, n: nat)
    requires PlayInv(q) && LoopsAhead(q) && Untouched(q) && q.cur < |q.hdrs|
    ensures PlayInv(Next(q, n).0)
    ensures Handed(Next(q, n).0) == Handed(q) + |Next(q, n).1|
  {
    EnterLoopKeepsPlay(q);
    TakeKeepsPlay(EnterLoop(q), Min(n, q.inCur));
  }

  // ---------------------------------------------------------------------------
  // AddBuffer keeps the accounting
  // ---------------------------------------------------------------------------

  lemma MarksPrefix(hdrs: seq<Hdr>, n: nat)
    requires Marks(hdrs) && n <= |hdrs|
    ensures Marks(hdrs[..n])
  {
    forall i: nat | i < n
      ensures MarkAt(hdrs[..n], i)
    {
      assert MarkAt(hdrs, i);
      assert hdrs[..n][..i] == hdrs[..i];
    }
  }

  lemma {:induction false} SimpleNeverOpen(hdrs: seq<Hdr>)
    requires Marks(hdrs) && AllSimple(hdrs)
    ensures OpenLoop(hdrs) == -1
  {
    var n := |hdrs|;
    if n > 0 && !hdrs[n - 1].end {
      assert MarkAt(hdrs, n - 1);
      MarksPrefix(hdrs, n - 1);
      SimpleNeverOpen(hdrs[..n - 1]);
    }
  }

  lemma AddKeepsPlay(q: Queue, data: seq<Byte>, begin: bool, end: bool, loops: nat)
    requires PlayInv(q) && q.build == -1
    requires Playable(NewHdr(data, begin, end, loops))
    requires Simple(NewHdr(data, begin, end, loops))
    ensures PlayInv(Add(q, data, begin, end, loops))
    ensures Handed(Add(q, data, begin, end, loops)) == Handed(q)
  {
    AddKeepsCursor(q, data, begin, end, loops);
    AddKeepsPlayable(q, data, begin, end, loops);
    AddKeepsSums(q, data, begin, end, loops);
    AddKeepsSimple(q, data, begin, end, loops);
    AddKeepsPlayer(q, data, begin, end, loops);
    hide SumTotal, Playable, AllPlayable, AllSimple, SelfMarked, PlayerAt;
  }

  lemma AddKeepsSimple(q: Queue, data: seq<Byte>, begin: bool, end: bool, loops: nat)
    requires AllSimple(q.hdrs) && SelfMarked(q.hdrs) && q.build == -1 && Simple(NewHdr(data, begin, end, loops))
    ensures var r := Add(q, data, begin, end, loops); AllSimple(r.hdrs) && SelfMarked(r.hdrs)
  {
  }

  lemma AddKeepsPlayer(q: Queue, data: seq<Byte>, begin: bool, end: bool, loops: nat)
    requires CursorOk(q) && PlayerAt(q.hdrs, q.head) && q.build == -1 && Playable(NewHdr(data, begin, end, loops))
    ensures var r := Add(q, data, begin, end, loops);
            && PlayerAt(r.hdrs, q.head)
            && (q.head < |q.hdrs| ==> PlayedIn(r.hdrs[q.head]) == PlayedIn(q.hdrs[q.head]))
            && (q.head == |q.hdrs| ==> PlayedIn(r.hdrs[q.head]) == 0)
  {
  }

  lemma AddKeepsSums(q: Queue, data: seq<Byte>, begin: bool, end: bool, loops: nat)
    requires CursorOk(q) && q.build == -1
    ensures var r := Add(q, data, begin, end, loops);
            SumTotal(r.hdrs, q.head) == SumTotal(q.hdrs, q.head) && SumTotal(r.hdrs, q.cur) == SumTotal(q.hdrs, q.cur)
  {
    var r := Add(q, data, begin, end, loops);
    SumTotalAgrees(q.hdrs, r.hdrs, q.head);
    SumTotalAgrees(q.hdrs, r.hdrs, q.cur);
  }

  // ---------------------------------------------------------------------------
  // AdvanceCurrentPosition leaves the stream alone
  // ---------------------------------------------------------------------------

  lemma ProductAtLeast(a: nat, b: nat)
    requires 1 <= b
    ensures a <= a * b
  {
  }

  lemma NothingHandedNothingPlayed(h: Hdr)
    requires h.begin && h.loops <= h.plays && 0 < |h.data| && PlayedIn(h) <= 0
    ensures h.loops == h.plays
  {
    ProductAtLeast(h.plays - h.loops, |h.data|);
  }

  lemma PlayImpliesUntouched(q: Queue)
    requires PlayInv(q)
    ensures Untouched(q) && LoopsAhead(q)
  {
    if q.head == q.cur < |q.hdrs| && q.loopStart == -1 && q.hdrs[q.cur].begin {
      assert HandedInCur(q) == 0;
      NothingHandedNothingPlayed(q.hdrs[q.cur]);
    }
  }

  /** Playing simple headers never gets ahead of copying, and never counts down a loop that is
      yet to be copied. */
  lemma SimpleStaysBehind(q: Queue, adv: nat)
    requires Shape(q) && Ready(q) && PlayInv(q)
    ensures Walkable(q.hdrs) && Behind(q, adv) && PlayInv(Advance(q, adv))
    ensures StreamInv(q) ==> !CountsAhead(q, adv)
  {
    AdvancePlays(q, adv);
    BehindIs(q, adv);
    PlayImpliesUntouched(Advance(q, adv));
    if StreamInv(q) {
      UntouchedIff(q, adv);
    }
  }

  lemma AdvanceKeepsStream(q: Queue, adv: nat)
    requires StreamInv(q) && Ready(q) && PlayInv(q)
    ensures Walkable(q.hdrs)
    ensures StreamInv(Advance(q, adv)) && Pulled(Advance(q, adv)) == Pulled(q)
  {
    SimpleStaysBehind(q, adv);
    AdvanceKeepsStreamIff(q, adv);
  }

  // ---------------------------------------------------------------------------
  // Runs
  // ---------------------------------------------------------------------------

  datatype Op =
    | AddOp(data: seq<Byte>, begin: bool, end: bool, loops: nat)
    | PullOp(n: nat)
    | PlayOp(n: nat)
    | ResetOp

  /** The queue and the bytes it has handed out since it was last reset.  `simple` tells
      whether every header queued since then was simple; `whole`, whether no
      header was queued into a loop that copying had been round already, and playing counted
      down no loop yet to be copied out. */
  datatype World = World(q: Queue, out: seq<Byte>, simple: bool, whole: bool)

  function NewWorld(loopDec: nat): World { World(EmptyQueue(loopDec), [], true, true) }

  /** What the users of the queue keep to, and the driver asserts: a loop is begun while
      another is open only if there is a tail to end that one, and playing stays behind
      copying. */
  ghost predicate Legal(w: World, op: Op)
    requires RunInv(w)
  {
    match op
    case AddOp(data, begin, end, loops) =>
      Playable(NewHdr(data, begin, end, loops)) && CanAdd(w.q, begin)
    case PullOp(n) => true
    case PlayOp(n) => Behind(w.q, n)
    case ResetOp => true
  }

  /** Every byte handed out is still buffered or counted as completed. */
  predicate Accounted(q: Queue, handed: nat) {
    0 <= q.buffered <= handed && q.completed == (handed - q.buffered) % DWORD_RANGE
  }

  ghost predicate RunInv(w: World) {
    && Shape(w.q) && Ready(w.q) && Accounted(w.q, |w.out|)
    && (w.whole ==> StreamPart(w.q) && w.out == Pulled(w.q))
    && (w.simple ==> w.whole && PlayInv(w.q) && |w.out| == Handed(w.q))
  }

  ghost function Step(w: World, op: Op): World
    requires RunInv(w) && Legal(w, op)
  {
    match op
    case AddOp(data, begin, end, loops) =>
      w.(q := Add(w.q, data, begin, end, loops),
         simple := w.simple && Simple(NewHdr(data, begin, end, loops)),
         whole := w.whole && !TooLate(w.q, begin))
    case PullOp(n) =>
      if w.q.cur == |w.q.hdrs| then w
      else w.(q := Next(w.q, n).0, out := w.out + Next(w.q, n).1)
    case PlayOp(n) =>
      ShapePlayed(w.q);
      w.(q := Advance(w.q, n), whole := w.whole && !CountsAhead(w.q, n))
    case ResetOp => NewWorld(w.q.loopDec)
  }

  lemma AddKeepsRunInv(w: World, op: Op)
    requires RunInv(w) && op.AddOp? && Legal(w, op)
    ensures RunInv(Step(w, op))
  {
    hide Front, OpenUncounted;
    AddKeepsShape(w.q, op.data, op.begin, op.end, op.loops);
    AddKeepsReady(w.q, op.data, op.begin, op.end, op.loops);
    if w.whole && !TooLate(w.q, op.begin) {
      AddKeepsStream(w.q, op.data, op.begin, op.end, op.loops);
    }
    if Step(w, op).simple {
      SimpleNeverOpen(w.q.hdrs);
      AddKeepsPlay(w.q, op.data, op.begin, op.end, op.loops);
    }
  }

  lemma PullKeepsRunInv(w: World, n: nat)
    requires RunInv(w)
    ensures RunInv(Step(w, PullOp(n)))
  {
    if w.q.cur < |w.q.hdrs| {
      hide Front, OpenUncounted, Marks, AllPlayable, LoopsAhead;
      NextKeepsShape(w.q, n);
      NextKeepsReady(w.q, n);
      NextFrame(w.q, n);
      if w.whole {
        NextPulls(w.q, n);
      }
      if w.simple {
        NextKeepsPlay(w.q, n);
      }
    }
  }

  lemma PlayKeepsRunInv(w: World, n: nat)
    requires RunInv(w) && Legal(w, PlayOp(n))
    ensures RunInv(Step(w, PlayOp(n)))
  {
    hide Front, OpenUncounted, Marks, AllPlayable, LoopsAhead, Untouched, Advance;
    AdvanceKeepsReady(w.q, n);
    AdvanceKeepsShapeIff(w.q, n);
    AdvanceAccounts(w.q, n, |w.out|);
    if w.whole {
      AdvanceKeepsStreamIff(w.q, n);
    }
    if w.simple {
      SimpleStaysBehind(w.q, n);
      HandedFrame(w.q, Advance(w.q, n));
    }
  }

  lemma AdvanceAccounts(q: Queue, adv: nat, handed: nat)
    requires Shape(q) && Ready(q) && Accounted(q, handed)
    ensures Walkable(q.hdrs) && Accounted(Advance(q, adv), handed)
  {
    ShapePlayed(q);
    if q.buffered > 0 {
      var n := Min(adv, q.buffered);
      WalkAccounts(q, q.head, n, handed);
      RemoveKeepsCounts(Walk(q, q.head, n).0);
    }
  }

  lemma {:induction false} RemoveKeepsCounts(q: Queue)
    ensures RemoveDone(q).buffered == q.buffered && RemoveDone(q).completed == q.completed
    decreases |q.hdrs| - q.head
  {
    if q.head < |q.hdrs| && q.hdrs[q.head].done {
      RemoveKeepsCounts(q.(head := q.head + 1));
    }
  }

  lemma {:induction false} WalkAccounts(q: Queue, p: nat, adv: nat, handed: nat)
    requires Walkable(q.hdrs) && p <= |q.hdrs| && adv <= q.buffered && Accounted(q, handed)
    ensures Accounted(Walk(q, p, adv).0, handed)
    decreases adv, Idle(q.hdrs, p)
  {
    if p < |q.hdrs| && adv > 0 {
      TurnFrame(q, p, adv);
      TurnGoesOn(q, p, adv);
      var (s, e, left) := Turn(q, p, adv);
      ModStep(handed - q.buffered, adv - left);
      WalkAccounts(s, e, left, handed);
    }
  }

  lemma HandedFrame(q: Queue, r: Queue)
    requires CursorOk(q) && PlayFrame(q, r.(head := q.head))
    ensures Handed(r) == Handed(q)
  {
    SumTotalAgrees(q.hdrs, r.hdrs, q.cur);
  }

  lemma StepKeepsRunInv(w: World, op: Op)
    requires RunInv(w) && Legal(w, op)
    ensures RunInv(Step(w, op))
  {
    match op
    case AddOp(_, _, _, _) => AddKeepsRunInv(w, op);
    case PullOp(n) => PullKeepsRunInv(w, n);
    case PlayOp(n) => PlayKeepsRunInv(w, n);
    case ResetOp => ResetKeepsRunInv(w.q.loopDec);
  }

  lemma ResetKeepsRunInv(loopDec: nat)
    requires loopDec <= 1
    ensures RunInv(NewWorld(loopDec))
  {
    hide Shape, Ready, StreamPart, Pulled, PlayInv, Handed;
    EmptyShape(loopDec);
    EmptyStream(loopDec);
  }

  lemma EmptyShape(loopDec: nat)
    requires loopDec <= 1
    ensures Shape(EmptyQueue(loopDec)) && Ready(EmptyQueue(loopDec))
    ensures PlayInv(EmptyQueue(loopDec)) && Handed(EmptyQueue(loopDec)) == 0
  {
  }

  lemma EmptyStream(loopDec: nat)
    requires loopDec <= 1
    ensures CursorOk(EmptyQueue(loopDec)) && StreamPart(EmptyQueue(loopDec)) && Pulled(EmptyQueue(loopDec)) == []
  {
  }

  /** `w` is where the run `ops` leads from `from`, every operation being legal when it
      is made. */
  ghost predicate Reaches(from: World, ops: seq<Op>, w: World)
    requires RunInv(from)
    decreases |ops|
  {
    if ops == [] then w == from
    else
      && Legal(from, ops[0])
      && (StepKeepsRunInv(from, ops[0]); Reaches(Step(from, ops[0]), ops[1..], w))
  }

  lemma {:induction false} RunKeepsInv(from: World, ops: seq<Op>, w: World)
    requires RunInv(from) && Reaches(from, ops, w)
    ensures RunInv(w)
    decreases |ops|
  {
    if ops != [] {
      StepKeepsRunInv(from, ops[0]);
      RunKeepsInv(Step(from, ops[0]), ops[1..], w);
    }
  }

  /** `w` is reached from the newly made queue. */
  ghost predicate Run(ops: seq<Op>, w: World) {
    (ResetKeepsRunInv(0); Reaches(NewWorld(0), ops, w))
  }

  lemma EveryRunKeepsInv(ops: seq<Op>, w: World)
    requires Run(ops, w)
    ensures RunInv(w)
  {
    ResetKeepsRunInv(0);
    RunKeepsInv(NewWorld(0), ops, w);
  }

  /** However the pulls are sized and interleaved with queuing and playing, the bytes
      handed out are a prefix of the queued stream, endless loops going on as long as need
      be, and, once nothing is left to hand out, all of it. */
  lemma EveryRunHandsOutTheStream(ops: seq<Op>, w: World)
    requires Run(ops, w) && w.whole
    ensures forall k: nat | w.q.passes < k :: w.out <= Meaning(w.q.hdrs, k)
    ensures w.q.cur == |w.q.hdrs| ==> forall k: nat :: w.out == Meaning(w.q.hdrs, k)
  {
    EveryRunKeepsInv(ops, w);
    forall k: nat
      ensures w.q.passes < k ==> w.out <= Meaning(w.q.hdrs, k)
      ensures w.q.cur == |w.q.hdrs| ==> w.out == Meaning(w.q.hdrs, k)
    {
      PulledIsPrefix(w.q, k);
    }
  }

  /** Whatever loops are queued, the bytes completed and those buffered are together the
      bytes handed out. */
  lemma EveryRunAccounts(ops: seq<Op>, w: World)
    requires Run(ops, w)
    ensures Accounted(w.q, |w.out|)
  {
    EveryRunKeepsInv(ops, w);
  }

  predicate CalledBack(q: Queue, i: nat) { i < q.head }

  /** All passes over header `i` and everything queued before it have been played. */
  predicate PlayedThrough(w: World, i: nat)
    requires i < |w.q.hdrs|
  {
    SumTotal(w.q.hdrs, i + 1) <= |w.out| - w.q.buffered
  }

  /** With simple headers, in every run: completed and buffered bytes are the bytes handed
      out; a header has been called back exactly when it and
      all before it are played in full; the queue is empty exactly when it is done; and any
      play is legal. */
  lemma EveryRunConservesAndCallsBack(ops: seq<Op>, w: World)
    requires Run(ops, w) && w.simple
    ensures Accounted(w.q, |w.out|)
    ensures forall i: nat | i < |w.q.hdrs| :: CalledBack(w.q, i) <==> PlayedThrough(w, i)
    ensures w.q.cur == |w.q.hdrs| && w.q.buffered <= 0 <==> w.q.head == |w.q.hdrs|
    ensures w.whole && RunInv(w) && forall n: nat :: Legal(w, PlayOp(n))
  {
    EveryRunKeepsInv(ops, w);
    BytesConserved(w.q);
    EmptyIsDone(w.q);
    CallbacksMatchPlay(w);
    forall n: nat
      ensures Legal(w, PlayOp(n))
    {
      SimpleStaysBehind(w.q, n);
    }
  }

  lemma CallbacksMatchPlay(w: World)
    requires w.q.cur <= |w.q.hdrs| && PlayInv(w.q) && |w.out| == Handed(w.q)
    ensures forall i: nat | i < |w.q.hdrs| :: CalledBack(w.q, i) <==> PlayedThrough(w, i)
  {
    BytesConserved(w.q);
    forall i: nat | i < |w.q.hdrs|
      ensures CalledBack(w.q, i) <==> PlayedThrough(w, i)
    {
      CallbackExactlyWhenPlayed(w.q, i);
    }
  }

  // ---------------------------------------------------------------------------
  // A loop begun while another is open
  // ---------------------------------------------------------------------------

  /** In every run, AddBuffer meets a null tail exactly when a loop is begun after the client
      has got back the last header it queued, and that header left a loop open. */
  lemma TailLostIff(ops: seq<Op>, w: World, begin: bool)
    requires Run(ops, w)
    ensures var n := |w.q.hdrs|;
            !CanAdd(w.q, begin) <==> begin && 0 < n && OpenLoop(w.q.hdrs) != -1 && CalledBack(w.q, n - 1)
  {
    EveryRunKeepsInv(ops, w);
  }

  /** And only a loop of one pass can be got back while it is open: its headers are played
      out, and its count is the 1 it was queued with. */
  lemma OnlyOnePassIsLost(ops: seq<Op>, w: World)
    requires Run(ops, w) && !CanAdd(w.q, true)
    ensures 0 <= w.q.build < |w.q.hdrs| && w.q.hdrs[w.q.build].begin && w.q.hdrs[w.q.build].plays == 1
    ensures forall i :: w.q.build <= i < |w.q.hdrs| ==> w.q.hdrs[i].done && !w.q.hdrs[i].end
  {
    EveryRunKeepsInv(ops, w);
    assert w.q.hdrs[..|w.q.hdrs|] == w.q.hdrs;
    OpenLoopIs(w.q.hdrs, |w.q.hdrs|);
  }

  // ---------------------------------------------------------------------------
  // Empty but not done
  // ---------------------------------------------------------------------------

  /** The step leaves the queue with nothing buffered or left to hand out and headers queued:
      it was so before and nothing was queued, or a call counted the last bytes buffered and
      they did not play all headers out. */
  ghost predicate LeavesStuck(q: Queue, op: Op) {
    match op
    case AddOp(_, _, _, _) => false
    case PullOp(_) => Stuck(q)
    case PlayOp(n) => Stuck(q) || Strands(q, n)
    case ResetOp => false
  }

  lemma StepStuckIff(w: World, op: Op)
    requires RunInv(w) && Legal(w, op)
    ensures Stuck(Step(w, op).q) <==> LeavesStuck(w.q, op)
  {
    ShapeCursor(w.q);
    match op
    case AddOp(data, begin, end, loops) => AddMakesCurrent(w.q, data, begin, end, loops);
    case PullOp(n) => PullNeverStuck(w.q, n);
    case PlayOp(n) => StuckIff(w.q, n);
    case ResetOp =>
  }

  lemma PullNeverStuck(q: Queue, n: nat)
    requires CursorOk(q) && AllPlayable(q.hdrs)
    ensures q.cur < |q.hdrs| ==> q.inCur <= |q.hdrs[q.cur].data| && !Stuck(Next(q, n).0)
  {
    if q.cur < |q.hdrs| {
      NextFrame(q, n);
    }
  }

  /** With simple headers it never happens. */
  lemma SimpleNeverStuck(ops: seq<Op>, w: World)
    requires Run(ops, w) && w.simple
    ensures !Stuck(w.q)
  {
    EveryRunConservesAndCallsBack(ops, w);
  }
}
