/** Repeated calls of GetNextBlock, as DoTransfer makes them to fill a stretch of the DMA
    buffer. */
module WavePull {
  import opened WaveModel
  import opened WaveStream
  import opened WaveWalk
  import opened WaveCost
  import opened WavePlay
  import opened WaveRuns

  /** All the blocks, up to `n` bytes together. */
  ghost function PullMany(q: Queue, n: nat): (Queue, seq<Byte>)
    requires Shape(q)
    decreases n
  {
    if n == 0 || q.cur == |q.hdrs| then (q, [])
    else
      NextKeepsShape(q, n);
      NextFrame(q, n);
      var (r, block) := Next(q, n);
      var (s, rest) := PullMany(r, n - |block|);
      (s, block + rest)
  }

  lemma {:induction false} PullManyFrame(q: Queue, n: nat)
    requires Shape(q)
    ensures var (r, data) := PullMany(q, n);
            && Shape(r) && |data| <= n && r.hdrs == q.hdrs && r.head == q.head
            && r.buffered == q.buffered + |data|
            && (|data| < n ==> r.cur == |r.hdrs|)
            && (0 < n && q.cur < |q.hdrs| ==> 0 < |data|)
    decreases n
  {
    hide Shape, Next, PullMany, Min;
    ShapeCursor(q);
    if n == 0 || q.cur == |q.hdrs| {
      PullNothing(q, n);
    } else {
      PullStep(q, n);
      NextFrame(q, n);
      var (r, block) := Next(q, n);
      PullManyFrame(r, n - |block|);
    }
  }

  lemma PullNothing(q: Queue, n: nat)
    requires Shape(q) && (n == 0 || q.cur == |q.hdrs|)
    ensures PullMany(q, n) == (q, [])
  {
  }

  /** What is transferred is the next piece of the stream, loops included, and it is all there
      is to transfer if it falls short. */
  lemma {:induction false} PullManyPulls(q: Queue, n: nat)
    requires StreamInv(q)
    ensures var (r, data) := PullMany(q, n);
            && StreamInv(r) && Pulled(r) == Pulled(q) + data
            && (|data| < n ==> forall k: nat :: Pulled(r) == Meaning(q.hdrs, k))
    decreases n
  {
    hide Next, Marks, AllPlayable, LoopsAhead, Untouched, Base, Part, Boundary;
    if n > 0 && q.cur < |q.hdrs| {
      PullStep(q, n);
      NextPulls(q, n);
      NextFrame(q, n);
      var (r, block) := Next(q, n);
      PullManyPulls(r, n - |block|);
      ConcatAssoc(Pulled(q), block, PullMany(r, n - |block|).1);
    } else {
      assert Pulled(q) + [] == Pulled(q);
      forall k: nat | q.cur == |q.hdrs|
        ensures Pulled(q) == Meaning(q.hdrs, k)
      {
        PulledIsPrefix(q, k);
      }
    }
  }

  lemma NextPasses(q: Queue, n: nat)
    requires CursorOk(q) && q.cur < |q.hdrs|
    ensures Next(q, n).0.passes <= q.passes + |Next(q, n).1|
  {
  }

  lemma {:induction false} PullManyPasses(q: Queue, n: nat)
    requires Shape(q)
    ensures PullMany(q, n).0.passes <= q.passes + |PullMany(q, n).1|
    decreases n
  {
    ShapeCursor(q);
    hide *;
    if n == 0 || q.cur == |q.hdrs| {
      PullNothing(q, n);
    } else {
      PullStep(q, n);
      NextPasses(q, n);
      PullManyPasses(Next(q, n).0, n - |Next(q, n).1|);
    }
  }

  /** The stream has fewer than `n` bytes left to hand out. */
  ghost predicate RunsDry(q: Queue, n: nat) {
    CursorOk(q) && |Meaning(q.hdrs, q.passes + n + 1)| < |Pulled(q)| + n
  }

  /** Exactly then a transfer of `n` bytes falls short. */
  lemma FallsShortIff(q: Queue, n: nat)
    requires StreamInv(q)
    ensures |PullMany(q, n).1| < n <==> RunsDry(q, n)
  {
    hide StreamPart, Shape, Pulled, Meaning, PullMany;
    ShapeCursor(q);
    var (r, data) := PullMany(q, n);
    PullManyPulls(q, n);
    PullManyFrame(q, n);
    PullManyPasses(q, n);
    ShapeCursor(r);
    var k := q.passes + n + 1;
    if |data| == n {
      PulledIsPrefix(r, k);
    } else {
      assert Pulled(r) == Meaning(q.hdrs, k);
    }
  }

  /** What a stream keeps: the bytes buffered are the last of those handed out. */
  ghost predicate StreamOk(q: Queue) {
    StreamInv(q) && Ready(q) && 0 <= q.buffered <= |Pulled(q)|
  }

  /** The queue's invariant while every header is simple. */
  ghost predicate QueueOk(q: Queue) {
    StreamInv(q) && Ready(q) && PlayInv(q) && |Pulled(q)| == Handed(q)
  }

  lemma EmptyQueueOk(loopDec: nat)
    requires loopDec <= 1
    ensures QueueOk(EmptyQueue(loopDec)) && Pulled(EmptyQueue(loopDec)) == []
  {
  }

  lemma SimpleStreamOk(q: Queue)
    requires QueueOk(q)
    ensures StreamOk(q)
  {
    BytesConserved(q);
  }

  lemma PullOnce(q: Queue, n: nat) returns (r: Queue, m: nat)
    requires Shape(q) && Ready(q) && 0 < n && q.cur < |q.hdrs|
    ensures Shape(r) && Ready(r) && m < n && PullMany(q, n).0 == PullMany(r, m).0
  {
    ShapeCursor(q);
    hide Shape, Ready, Next, PullMany, CursorOk;
    PullStep(q, n);
    NextKeepsReady(q, n);
    r, m := Next(q, n).0, n - |Next(q, n).1|;
  }

  lemma {:induction false} PullManyKeepsReady(q: Queue, n: nat)
    requires Shape(q) && Ready(q)
    ensures Ready(PullMany(q, n).0)
    decreases n
  {
    ShapeCursor(q);
    hide Shape, Ready, Next, PullMany, CursorOk;
    if n == 0 || q.cur == |q.hdrs| {
      PullNothing(q, n);
    } else {
      var r, m := PullOnce(q, n);
      PullManyKeepsReady(r, m);
    }
  }

  lemma PullManyStream(q: Queue, n: nat)
    requires StreamOk(q)
    ensures StreamOk(PullMany(q, n).0) && Pulled(PullMany(q, n).0) == Pulled(q) + PullMany(q, n).1
  {
    hide PullMany, Ready;
    PullManyPulls(q, n);
    PullManyKeepsReady(q, n);
    PullManyFrame(q, n);
  }

  /** Playing `adv` bytes stays behind copying, counts down no loop yet to be copied out, and
      counts every byte. */
  ghost predicate PlayFits(q: Queue, adv: nat) {
    Behind(q, adv) && !CountsAhead(q, adv) && CountsAll(q, adv)
  }

  lemma AdvanceKeepsStreamOk(q: Queue, adv: nat)
    requires StreamOk(q)
    ensures Walkable(q.hdrs)
    ensures PlayFits(q, adv) ==>
              && StreamOk(Advance(q, adv)) && Pulled(Advance(q, adv)) == Pulled(q)
              && Advance(q, adv).buffered == q.buffered - Min(adv, q.buffered)
  {
    hide Front, OpenUncounted, Marks, AllPlayable, LoopsAhead, Untouched, Advance, Pulled, Boundary;
    AdvanceKeepsReady(q, adv);
    AdvanceKeepsStreamIff(q, adv);
    CountsAllIff(q, adv);
  }

  lemma AddKeepsStreamOk(q: Queue, data: seq<Byte>, begin: bool, end: bool, loops: nat)
    requires StreamOk(q) && CanAdd(q, begin) && !TooLate(q, begin)
    requires Playable(NewHdr(data, begin, end, loops))
    ensures var r := Add(q, data, begin, end, loops);
            StreamOk(r) && Pulled(r) == Pulled(q) && r.buffered == q.buffered
  {
    hide Front, OpenUncounted, Marks, AllPlayable, LoopsAhead, Untouched, Pulled, Boundary;
    AddKeepsStream(q, data, begin, end, loops);
    AddKeepsReady(q, data, begin, end, loops);
  }

  lemma NextKeepsQueueOk(q: Queue, n: nat)
    requires QueueOk(q) && q.cur < |q.hdrs|
    ensures QueueOk(Next(q, n).0)
  {
    hide Front, OpenUncounted;
    NextPulls(q, n);
    NextKeepsPlay(q, n);
    NextKeepsReady(q, n);
  }

  lemma {:induction false} PullManyKeepsQueueOk(q: Queue, n: nat)
    requires QueueOk(q)
    ensures QueueOk(PullMany(q, n).0)
    decreases n
  {
    hide *;
    OkShape(q);
    ShapeCursor(q);
    if n == 0 || q.cur == |q.hdrs| {
      PullNothing(q, n);
    } else {
      PullStep(q, n);
      NextKeepsQueueOk(q, n);
      var (r, block) := Next(q, n);
      PullManyKeepsQueueOk(r, n - |block|);
    }
  }

  lemma OkShape(q: Queue)
    requires QueueOk(q)
    ensures Shape(q) && q.cur <= |q.hdrs|
  {
  }

  /** With simple headers alone nothing more is asked for. */
  lemma PullManyOk(q: Queue, n: nat)
    requires QueueOk(q)
    ensures QueueOk(PullMany(q, n).0) && Pulled(PullMany(q, n).0) == Pulled(q) + PullMany(q, n).1
  {
    hide PullMany, Ready, PlayInv;
    PullManyPulls(q, n);
    PullManyKeepsQueueOk(q, n);
  }

  // ---------------------------------------------------------------------------
  // Splitting a pull in two changes nothing
  // ---------------------------------------------------------------------------

  /** Part of a header first, the rest of the block after. */
  lemma BlockSplits(q: Queue, a: nat, b: nat)
    requires Shape(q) && q.cur < |q.hdrs| && 0 < a < q.inCur && 0 < b
    ensures Shape(Next(q, a).0) && Next(q, a).0.cur == q.cur && Next(q, a).0.hdrs == q.hdrs
    ensures Next(Next(q, a).0, b).0 == Next(q, a + b).0
    ensures Next(q, a).1 + Next(Next(q, a).0, b).1 == Next(q, a + b).1
  {
    NextKeepsShape(q, a);
    ShapeCursor(q);
    hide Shape;
    NextInPart(q, a);
    var r, k := Next(q, a).0, Min(b, q.inCur - a);
    NextOnward(q, a, b);
    var data := q.hdrs[q.cur].data;
    var at := |data| - q.inCur;
    assert data[at..at + a + k] == data[at..at + a] + data[at + a..at + a + k];
  }

  /** Less than what is left of the current header is taken. */
  lemma NextInPart(q: Queue, a: nat)
    requires CursorOk(q) && q.cur < |q.hdrs| && 0 < a < q.inCur
    ensures Next(q, a) == (Taken(EnterLoop(q), a), Block(q, a))
    ensures var r := Taken(EnterLoop(q), a);
            EnterLoop(r) == r && r.cur == q.cur && r.hdrs == q.hdrs && r.inCur == q.inCur - a
  {
  }

  lemma NextOnward(q: Queue, a: nat, b: nat)
    requires CursorOk(q) && q.cur < |q.hdrs| && 0 < a < q.inCur && 0 < b
    ensures var r, k := Taken(EnterLoop(q), a), Min(b, q.inCur - a);
            && Next(r, b).0 == Next(q, a + b).0
            && Next(q, a + b).1 == Block(q, a + k) && Next(r, b).1 == Block(r, k)
  {
    hide RollOver;
    NextInPart(q, a);
    var e, k := EnterLoop(q), Min(b, q.inCur - a);
    assert Taken(Taken(e, a), k) == Taken(e, a + k);
  }

  /** Pulling `a` bytes and then `b` comes to the same as pulling `a + b`. */
  ghost predicate Splits(q: Queue, a: nat, b: nat)
    requires Shape(q)
  {
    var (r, d1) := PullMany(q, a);
    Shape(r) &&
    var (s, d2) := PullMany(r, b);
    PullMany(q, a + b) == (s, d1 + d2)
  }

  lemma PullStep(q: Queue, n: nat)
    requires Shape(q) && q.cur < |q.hdrs| && 0 < n
    ensures Shape(Next(q, n).0) && |Next(q, n).1| == Min(n, q.inCur) && 0 < |Next(q, n).1| <= n
    ensures var (r, block) := Next(q, n);
            PullMany(q, n) == (PullMany(r, n - |block|).0, block + PullMany(r, n - |block|).1)
  {
    NextKeepsShape(q, n);
    NextFrame(q, n);
  }

  /** The first pull ends inside a header. */
  lemma SplitsInBlock(q: Queue, a: nat, b: nat)
    requires Shape(q) && q.cur < |q.hdrs| && 0 < a < q.inCur && 0 < b
    ensures Splits(q, a, b)
  {
    hide Next, Marks, AllPlayable, LoopsAhead;
    BlockSplits(q, a, b);
    PullStep(q, a);
    PullStep(q, a + b);
    var (r, d1) := Next(q, a);
    PullStep(r, b);
    assert PullMany(q, a) == (r, d1 + []);
    assert d1 + [] == d1;
    var (s, d2) := Next(r, b);
    ConcatAssoc(d1, d2, PullMany(s, b - |d2|).1);
  }

  /** The first pull goes beyond the current header. */
  lemma SplitsBeyondBlock(q: Queue, a: nat, b: nat)
    requires Shape(q) && q.cur < |q.hdrs| && 0 < q.inCur <= a && q.inCur <= |q.hdrs[q.cur].data|
    requires Shape(Next(q, a).0) && Splits(Next(q, a).0, a - q.inCur, b)
    ensures Splits(q, a, b)
  {
    hide PullMany, Next, Shape;
    PullStep(q, a);
    PullStep(q, a + b);
    NextIndependent(q, a, a + b);
    var (r, block) := Next(q, a);
    var (s, d1) := PullMany(r, a - |block|);
    PullManyFrame(r, a - |block|);
    ConcatAssoc(block, d1, PullMany(s, b).1);
  }

  lemma NextIndependent(q: Queue, a: nat, b: nat)
    requires q.cur < |q.hdrs| && q.inCur <= |q.hdrs[q.cur].data| && q.inCur <= a <= b
    ensures Next(q, a) == Next(q, b)
  {
  }

  lemma {:induction false} PullSplits(q: Queue, a: nat, b: nat)
    requires Shape(q)
    ensures Splits(q, a, b)
    decreases a
  {
    if q.cur == |q.hdrs| || a == 0 {
      assert [] + PullMany(q, b).1 == PullMany(q, b).1;
    } else if b == 0 {
      PullManyFrame(q, a);
      assert PullMany(q, a).1 + [] == PullMany(q, a).1;
    } else if a < q.inCur {
      SplitsInBlock(q, a, b);
    } else {
      NextKeepsShape(q, a);
      PullSplits(Next(q, a).0, a - q.inCur, b);
      SplitsBeyondBlock(q, a, b);
    }
  }

  // ---------------------------------------------------------------------------
  // The queue's other operations, for simple headers
  // ---------------------------------------------------------------------------

  lemma AdvanceKeepsQueueOk(q: Queue, adv: nat)
    requires QueueOk(q)
    ensures Walkable(q.hdrs) && PlayFits(q, adv)
    ensures var r := Advance(q, adv);
            && QueueOk(r) && Pulled(r) == Pulled(q) && r.cur == q.cur && |r.hdrs| == |q.hdrs|
            && r.buffered == q.buffered - Min(adv, q.buffered)
  {
    AdvancePlays(q, adv);
    AdvanceKeepsStream(q, adv);
    AdvanceKeepsReady(q, adv);
    SimpleStaysBehind(q, adv);
    HandedFrame(q, Advance(q, adv));
    CountsAllIff(q, adv);
    hide Front, OpenUncounted, Marks, AllPlayable, LoopsAhead, Untouched, Advance, Pulled, Boundary, Behind,
         CountsAhead, CountsAll, PlayInv;
  }

  lemma AddKeepsQueueOk(q: Queue, data: seq<Byte>, begin: bool, end: bool, loops: nat)
    requires QueueOk(q)
    requires Playable(NewHdr(data, begin, end, loops)) && Simple(NewHdr(data, begin, end, loops))
    ensures q.build == -1 && !TooLate(q, begin)
    ensures var r := Add(q, data, begin, end, loops);
            && QueueOk(r) && Pulled(r) == Pulled(q) && r.buffered == q.buffered
            && r.head == q.head < |r.hdrs| && r.cur == q.cur < |r.hdrs|
  {
    hide Front, OpenUncounted;
    SimpleNeverOpen(q.hdrs);
    AddKeepsStream(q, data, begin, end, loops);
    AddKeepsReady(q, data, begin, end, loops);
    AddKeepsPlay(q, data, begin, end, loops);
  }

  /** A queue with a header left to play has bytes buffered or left to hand out. */
  lemma NotDoneNotEmpty(q: Queue)
    requires QueueOk(q)
    ensures 0 <= q.buffered <= |Pulled(q)|
    ensures q.head < |q.hdrs| <==> (q.cur < |q.hdrs| || 0 < q.buffered)
  {
    EmptyIsDone(q);
    BytesConserved(q);
  }
}
