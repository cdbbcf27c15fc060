/** The output stream as the driver keeps it.  Each locked method is one step, tied to the
    relation of StreamModel that says what becomes of ring, cursors and queue. */
module OutputStream {
  import opened WaveModel
  import opened WaveStream
  import opened WaveWalk
  import opened WaveCost
  import opened WavePlay
  import opened WavePull
  import opened WaveQueue
  import opened RingModel
  import opened StreamModel

  /** Part of the way through DoTransfer: of the `n` bytes asked for from `q0` all but `left`
      have gone to the ring, which was `r0`, from `dst` on. */
  ghost predicate Copied(q0: Queue, n: nat, r0: seq<Byte>, dst: nat, q: Queue, left: nat, ring: seq<Byte>) {
    && Shape(q0) && Shape(q) && left <= n && dst + n <= |r0|
    && var (t, data) := PullMany(q0, n);
       && n - left <= |data| && t == PullMany(q, left).0
       && data == data[..n - left] + PullMany(q, left).1
       && ring == Spliced(r0, dst, data[..n - left])
  }

  lemma CopiedNothing(q0: Queue, n: nat, r0: seq<Byte>, dst: nat)
    requires Shape(q0) && dst + n <= |r0|
    ensures Copied(q0, n, r0, dst, q0, n, r0)
  {
    hide PullMany;
    var data := PullMany(q0, n).1;
    assert data[..0] + data == data;
  }

  lemma CopiedStep(q0: Queue, n: nat, r0: seq<Byte>, dst: nat, q: Queue, left: nat, ring: seq<Byte>)
    requires Copied(q0, n, r0, dst, q, left, ring) && 0 < left && Shape(q) && q.cur < |q.hdrs|
    ensures q.inCur <= |q.hdrs[q.cur].data| && |ring| == |r0|
    ensures var (r, block) := Next(q, left);
            && 0 < |block| <= left && dst + (n - left) + |block| <= |ring|
            && Copied(q0, n, r0, dst, r, left - |block|, Spliced(ring, dst + (n - left), block))
  {
    hide PullMany, Next;
    ShapeCursor(q);
    PullStep(q, left);
    PullManyFrame(q0, n);
    var data := PullMany(q0, n).1;
    var (r, block) := Next(q, left);
    var k := n - left;
    var rest := PullMany(r, left - |block|).1;
    ConcatAssoc(data[..k], block, rest);
    assert data == (data[..k] + block) + rest;
    assert data[..k + |block|] == data[..k] + block;
    SplicedTwice(r0, dst, data[..k], block);
  }

  lemma CopiedAll(q0: Queue, n: nat, r0: seq<Byte>, dst: nat, q: Queue, left: nat, ring: seq<Byte>)
    requires Copied(q0, n, r0, dst, q, left, ring) && (left == 0 || q.cur == |q.hdrs|)
    ensures var (t, data) := PullMany(q0, n);
            q == t && Shape(q) && |data| == n - left && ring == Spliced(r0, dst, data)
  {
    hide PullMany;
    PullNothing(q, left);
    var data := PullMany(q0, n).1;
    assert data == data[..n - left];
  }

  /** A transfer that goes round the end, made in two parts, is one write of the ring: if the
      first part runs dry there is nothing to write in the second. */
  lemma FirstPart(q0: Queue, n: nat, r0: seq<Byte>, cursor: nat, q1: Queue, d1: seq<Byte>)
    requires Shape(q0) && Shape(q1) && 0 < |r0| && cursor <= |r0| && |r0| - cursor < n <= |r0|
    requires PullMany(q0, |r0| - cursor) == (q1, d1) && |d1| <= |r0| - cursor
    ensures var d2 := PullMany(q1, n - (|r0| - cursor)).1;
            && |d2| <= n - (|r0| - cursor) && (|d1| < |r0| - cursor ==> d2 == [])
            && PullMany(q0, n) == (PullMany(q1, n - (|r0| - cursor)).0, d1 + d2) && |d1 + d2| <= n
            && Wrote(r0, Spliced(Spliced(r0, cursor, d1), 0, d2), cursor, d1 + d2)
  {
    hide PullMany, Shape, Wrote, Spliced;
    var left := |r0| - cursor;
    PullManyFrame(q1, n - left);
    PullManyFrame(q0, left);
    PullSplits(q0, left, n - left);
    if |d1| < left {
      PullNothing(q1, n - left);
    }
    SplicedAround(r0, cursor, d1, PullMany(q1, n - left).1);
  }

  class OutputStream {
    const queue: WavehdrQueue
    const ring: array<Byte>
    const silence: Byte
    var transferCursor: nat
    var lastDMACursor: nat
    var started: bool
    var paused: bool

    ghost predicate Sound()
      reads this, queue, queue.live, queue.Strays(), ring
    {
      && queue.Valid()
      && 0 < ring.Length
      && transferCursor <= ring.Length && lastDMACursor <= ring.Length
    }

    ghost predicate Valid()
      reads this, queue, queue.live, queue.Strays(), ring
    {
      Sound() && (paused ==> !started)
    }

    /** A stream with headers that is not paused runs. */
    ghost predicate NoStall()
      reads this, queue
    {
      !paused && queue.model.head < |queue.model.hdrs| ==> started
    }

    /** Ring, cursors, queue and flags. */
    ghost function Value(): Stream
      reads this, queue, ring
    {
      Stream(ring[..], lastDMACursor, transferCursor, queue.model, started, paused)
    }

    /** What has been handed out is the stream. */
    ghost predicate Steady()
      reads queue
    {
      StreamOk(queue.model)
    }

    /** Besides, every header queued is a simple one, and its bytes are accounted for. */
    ghost predicate Plain()
      reads queue
    {
      Steady() && QueueOk(queue.model)
    }

    ghost predicate InStep()
      reads this, queue, ring
      requires Steady()
    {
      Synced(Value())
    }

    constructor (queue: WavehdrQueue, ring: array<Byte>, silence: Byte)
      requires queue.Valid() && queue.model == EmptyQueue(0) && 0 < ring.Length
      ensures this.queue == queue && this.ring == ring && this.silence == silence
      ensures Valid() && NoStall() && Plain() && InStep()
      ensures Value() == Stream(ring[..], 0, 0, EmptyQueue(0), false, false)
    {
      hide QueueOk, StreamOk, Shape, InSync;
      EmptyQueueOk(0);
      SimpleStreamOk(EmptyQueue(0));
      this.queue, this.ring, this.silence := queue, ring, silence;
      transferCursor, lastDMACursor := 0, 0;
      started, paused := false, false;
      new;
    }

    // -------------------------------------------------------------------------
    // Transfers
    // -------------------------------------------------------------------------

    method CopyBlock(at: nat, block: seq<Byte>)
      requires at + |block| <= ring.Length
      modifies ring
      ensures ring[..] == Spliced(old(ring[..]), at, block)
    {
      forall i | 0 <= i < |block| {
        ring[at + i] := block[i];
      }
    }

    /** One block, of at most `left` bytes, goes to the buffer at `at`; none if there is none. */
    method TransferBlock(at: nat, left: nat) returns (ok: bool, n: nat)
      requires queue.Valid() && Shape(queue.model) && 0 < left && at + left <= ring.Length
      modifies this`transferCursor, ring, queue`pCurrent, queue`pLoopStart, queue`loopCount,
               queue`loopDecrement, queue`bytesInCurrent, queue`bytesBuffered, queue`model
      ensures queue.Valid() && Shape(queue.model) && ok == (old(queue.model).cur < |old(queue.model).hdrs|)
      ensures !ok ==> n == 0 && queue.model == old(queue.model) && ring[..] == old(ring[..])
      ensures ok ==>
        && old(queue.model).inCur <= |old(queue.model).hdrs[old(queue.model).cur].data|
        && queue.model == Next(old(queue.model), left).0 && n == |Next(old(queue.model), left).1| <= left
        && ring[..] == Spliced(old(ring[..]), at, Next(old(queue.model), left).1)
      ensures transferCursor == old(transferCursor) + n
    {
      hide Shape, Next, Chain, Represent, StrayFits, Marked, Points, Ready, Walkable, Spliced;
      ghost var q := queue.model;
      queue.ValidShape();
      ShapeCursor(q);
      var block;
      ok, block := queue.GetNextBlock(left);
      queue.ValidShape();
      n := 0;
      if ok {
        NextFrame(q, left);
        CopyBlock(at, block);
        n := |block|;
        transferCursor := transferCursor + n;
      }
    }

    /** DoTransfer, PCM: up to `n` bytes go to the buffer from `dst` on.  The transfer cursor
        moves by what was there. */
    method DoTransfer(dst: nat, n: nat)
      requires queue.Valid() && Shape(queue.model) && dst + n <= ring.Length
      requires transferCursor + |PullMany(queue.model, n).1| <= ring.Length
      modifies this`transferCursor, ring, queue`pCurrent, queue`pLoopStart, queue`loopCount,
               queue`loopDecrement, queue`bytesInCurrent, queue`bytesBuffered, queue`model
      ensures queue.Valid() && Shape(queue.model)
      ensures queue.model == PullMany(old(queue.model), n).0
      ensures var data := PullMany(old(queue.model), n).1;
              && |data| <= n
              && ring[..] == Spliced(old(ring[..]), dst, data)
              && var end := old(transferCursor) + |data|;
                 transferCursor == if end == ring.Length then 0 else end
    {
      hide PullMany, Shape, Copied, Next, Chain, Represent, StrayFits, Marked, Points, Ready, Walkable, Spliced;
      ghost var q0, r0 := queue.model, ring[..];
      var at, left := dst, n;
      var ok := true;
      CopiedNothing(q0, n, r0, dst);
      while left > 0 && ok
        invariant 0 <= left <= n && at == dst + (n - left)
        invariant queue.Valid() && Shape(queue.model) && (!ok ==> queue.model.cur == |queue.model.hdrs|)
        invariant Copied(q0, n, r0, dst, queue.model, left, ring[..])
        invariant transferCursor == old(transferCursor) + (n - left)
        decreases left, ok
      {
        queue.ValidShape();
        if queue.model.cur < |queue.model.hdrs| {
          CopiedStep(q0, n, r0, dst, queue.model, left, ring[..]);
        }
        var taken;
        ok, taken := TransferBlock(at, left);
        at, left := at + taken, left - taken;
      }
      CopiedAll(q0, n, r0, dst, queue.model, left, ring[..]);
      if transferCursor == ring.Length {
        transferCursor := 0;
      }
    }

    /** DoSplitTransfer: one write of the ring.  Whatever is available up to `n` bytes goes
        to the ring from the transfer cursor on, round the end if need be, and the cursor
        moves by as much; if the part before the end runs dry the part after it is left
        alone. */
    method DoSplitTransfer(n: nat)
      requires queue.Valid() && Shape(queue.model)
      requires 0 < ring.Length && transferCursor <= ring.Length && n <= ring.Length
      modifies this`transferCursor, ring, queue`pCurrent, queue`pLoopStart, queue`loopCount,
               queue`loopDecrement, queue`bytesInCurrent, queue`bytesBuffered, queue`model
      ensures queue.Valid() && Shape(queue.model)
      ensures queue.model == PullMany(old(queue.model), n).0
      ensures var data := PullMany(old(queue.model), n).1;
              && |data| <= n
              && Wrote(old(ring[..]), ring[..], old(transferCursor), data)
              && transferCursor == (old(transferCursor) + |data|) % ring.Length
                 == Wrap(ring.Length, old(transferCursor) + |data|)
              && forall i :: 0 <= i < |data| ==> ring[..][(old(transferCursor) + i) % ring.Length] == data[i]
    {
      hide PullMany, Shape, Wrote, Spliced, Chain, Represent, StrayFits, Ready, Walkable;
      ghost var q0, r0, c0 := queue.model, ring[..], transferCursor;
      var bytesLeft := ring.Length - transferCursor;
      var buffer := transferCursor;
      var count := n;
      PullManyFrame(q0, n);
      if count > bytesLeft {
        count := count - bytesLeft;
        PullManyFrame(q0, bytesLeft);
        DoTransfer(buffer, bytesLeft);
        buffer := 0;
        PullManyFrame(queue.model, count);
        FirstPart(q0, n, r0, c0, queue.model, PullMany(q0, bytesLeft).1);
      }
      DoTransfer(buffer, count);
      if n <= bytesLeft {
        SplicedWrote(r0, c0, PullMany(q0, n).1);
      }
      WroteMod(r0, ring[..], c0, PullMany(q0, n).1);
    }

    // -------------------------------------------------------------------------
    // The DMA cursor
    // -------------------------------------------------------------------------

    /** memset of `n` bytes of the buffer from `at` on. */
    method Silence(at: nat, n: nat)
      requires at + n <= ring.Length
      modifies ring
      ensures ring[..] == Spliced(old(ring[..]), at, Silences(silence, n))
    {
      forall i | at <= i < at + n {
        ring[i] := silence;
      }
    }

    /** How far playing has got and how much room there is for fresh data, from a reading
        `dma` of the DMA cursor. */
    method GetAdvance(dma: nat, late: bool) returns (advance: nat, room: nat)
      requires 0 < ring.Length && transferCursor <= ring.Length && lastDMACursor <= ring.Length && dma <= ring.Length
      modifies this`transferCursor, this`lastDMACursor, ring
      ensures advance == AdvanceOf(ring.Length, old(lastDMACursor), old(transferCursor), dma, late)
      ensures room == RoomOf(ring.Length, old(lastDMACursor), old(transferCursor), dma, late) <= ring.Length
      ensures transferCursor == if Underflow(ring.Length, old(lastDMACursor), old(transferCursor), dma, late)
                                then dma else old(transferCursor)
      ensures lastDMACursor == dma
      ensures Padded(old(ring[..]), ring[..], old(lastDMACursor), old(transferCursor), dma, late, silence)
      ensures var (size, last, cursor, was) := (ring.Length, old(lastDMACursor), old(transferCursor), old(ring[..]));
              var data := cursor - last + if last < cursor then 0 else size;
              var moved := dma - last + if last <= dma then 0 else size;
              if late || data < moved then
                && advance == data && room == size && transferCursor == dma
                && forall j :: 0 <= j < size ==> ring[..][j] == silence
              else
                && advance == moved && room == size - (data - moved) && transferCursor == cursor
                && if data - moved <= size / 8 then
                     forall i: nat | i < size ::
                       From(ring[..], cursor, i) == if i < size / 8 then silence else From(was, cursor, i)
                   else forall j :: 0 <= j < size ==> ring[..][j] == was[j]
    {
      hide From;
      var size, interval := ring.Length, ring.Length / 8;
      ghost var was, last, cursor := ring[..], lastDMACursor, transferCursor;
      var maxAdvance := if lastDMACursor < transferCursor then transferCursor - lastDMACursor
                        else size + transferCursor - lastDMACursor;
      advance := if dma >= lastDMACursor then dma - lastDMACursor else size + dma - lastDMACursor;
      if late || advance > maxAdvance {
        advance := maxAdvance;
        room := size;
        transferCursor := dma;
        Silence(0, size);
      } else {
        var beforeUnderflow := maxAdvance - advance;
        if beforeUnderflow <= interval {
          PadFrom(transferCursor, interval);
        }
        room := size - beforeUnderflow;
      }
      lastDMACursor := dma;
      PaddedIs(was, ring[..], last, cursor, dma, late, silence);
    }

    /** Silence over the next interval from the transfer cursor on, in two pieces if it
        goes round the end. */
    method PadFrom(cursor: nat, interval: nat)
      requires cursor == transferCursor <= ring.Length && interval == ring.Length / 8 && 0 < ring.Length
      modifies ring
      ensures Wrote(old(ring[..]), ring[..], cursor, Silences(silence, interval))
    {
      if cursor + interval <= ring.Length {
        Silence(cursor, interval);
      } else {
        Silence(cursor, ring.Length - cursor);
        Silence(0, cursor + interval - ring.Length);
      }
    }

    method Stop()
      modifies `started
      ensures !started
    {
      if started {
        started := false;
      }
    }

    // -------------------------------------------------------------------------
    // The interrupt
    // -------------------------------------------------------------------------

    /** The first half of the interrupt: what has been played is counted, and finished
        headers go back to the client. */
    method CountPlayed(dma: nat, late: bool) returns (room: nat)
      requires Sound() && dma <= ring.Length && Behind(queue.model, Counted(Value(), dma, late))
      modifies this`transferCursor, this`lastDMACursor, queue, queue.live, queue.Strays(), ring
      ensures Sound() && room == RoomIn(old(Value()), dma, late) <= ring.Length
      ensures Value() == CountedAs(old(Value()), dma, late, ring[..])
      ensures Padded(old(ring[..]), ring[..], old(lastDMACursor), old(transferCursor), dma, late, silence)
      ensures queue.HandedBack(old(queue.live), old(queue.calledBack)) && queue.AllReturned(old(queue.live))
    {
      hide Chain, Represent, StrayFits, Marks, AllPlayable, LoopsAhead, Ready, Shape, Advance, Behind, Walkable,
           Padded, Underflow, AdvanceOf, RoomOf;
      var advance;
      advance, room := GetAdvance(dma, late);
      queue.AdvanceCurrentPosition(advance);
    }

    /** The second half: fresh data into the room. */
    method Refill(room: nat)
      requires Sound() && room <= ring.Length
      modifies this`transferCursor, ring, queue`pCurrent, queue`pLoopStart, queue`loopCount,
               queue`loopDecrement, queue`bytesInCurrent, queue`bytesBuffered, queue`model
      ensures Sound() && Filled(old(Value()), room, Value())
      ensures queue.model.head == old(queue.model).head && |queue.model.hdrs| == |old(queue.model).hdrs|
    {
      hide Chain, Represent, StrayFits, PullMany, Marks, AllPlayable, LoopsAhead, Wrote, Ready, Shape;
      queue.ValidShape();
      PullManyFrame(queue.model, room);
      DoSplitTransfer(room);
    }

    /** Counts what has been played, hands back finished headers, and refills the ring; a
        stream with nothing left stops.  If what was played can be counted, a stream in step
        stays so exactly if the cursors will tell what is buffered; with simple headers it can
        be counted, and any reading that is a position of the ring tells. */
    method HandleInterrupt(dma: nat, late: bool)
      requires Valid() && dma <= ring.Length && Behind(queue.model, Counted(Value(), dma, late))
      modifies this, queue, queue.live, queue.Strays(), ring
      ensures Valid() && paused == old(paused) && (old(NoStall()) ==> NoStall())
      ensures started == (old(started) && queue.model.head < |queue.model.hdrs|)
      ensures Interrupted(old(Value()), Value(), dma, late, silence)
      ensures queue.HandedBack(old(queue.live), old(queue.calledBack)) && queue.AllReturned(old(queue.live))
      ensures old(Plain()) ==> Plain() && old(PlayFits(queue.model, Counted(Value(), dma, late)))
      ensures old(Steady() && PlayFits(queue.model, Counted(Value(), dma, late))) ==> Steady()
      ensures old(Steady() && PlayFits(queue.model, Counted(Value(), dma, late)) && started && InStep()) && started ==>
                (InStep() <==> old(Tells(Value(), dma, late)))
      ensures old(Plain() && started && InStep()) && started && dma < ring.Length ==> InStep()
    {
      hide PullMany, Shape, Advance, QueueOk, StreamOk, Padded, InSync, Wrote, Underflow, AdvanceOf, RoomOf, Wrap,
           Behind, Walkable, Ready, Chain, Represent, StrayFits, Marked, Points, PlayFits, Tells, Pulled, Returned;
      ghost var s := Value();
      FormedNow();
      CountAndRefill(dma, late);
      hide Interrupted, Counted;
      Interpret(s, dma, late);
    }

    /** Its two halves. */
    method CountAndRefill(dma: nat, late: bool)
      requires Sound() && dma <= ring.Length && Behind(queue.model, Counted(Value(), dma, late))
      modifies this, queue, queue.live, queue.Strays(), ring
      ensures Sound() && paused == old(paused)
      ensures started == (old(started) && queue.model.head < |queue.model.hdrs|)
      ensures Interrupted(old(Value()), Value(), dma, late, silence)
      ensures queue.HandedBack(old(queue.live), old(queue.calledBack)) && queue.AllReturned(old(queue.live))
    {
      hide PullMany, Shape, Advance, Padded, Wrote, Underflow, AdvanceOf, RoomOf, Wrap, Behind, Ready, Chain,
           Represent, StrayFits, Marked, Points, Returned, Filled;
      ghost var s := Value();
      FormedNow();
      FormedBounds(s);
      queue.ValidShape();
      var room := CountPlayed(dma, late);
      ghost var padded := ring[..];
      var done := queue.IsDone();
      if done {
        Stop();
      } else {
        Refill(room);
      }
      hide CountedAs;
      InterruptedBy(s, padded, Value(), dma, late, silence);
    }

    lemma FormedNow()
      requires Sound()
      ensures Formed(Value())
    {
      hide Chain, Represent, StrayFits, Marks, AllPlayable, LoopsAhead, Front, OpenUncounted;
    }

    /** What follows from the relation. */
    lemma Interpret(s: Stream, dma: nat, late: bool)
      requires Formed(s) && dma <= |s.ring| && Interrupted(s, Value(), dma, late, silence)
      ensures QueueOk(s.q) ==> Plain() && PlayFits(s.q, Counted(s, dma, late)) && StreamOk(s.q)
      ensures StreamOk(s.q) && PlayFits(s.q, Counted(s, dma, late)) ==>
                && Steady()
                && (s.started && Synced(s) && started ==> (InStep() <==> Tells(s, dma, late)))
      ensures QueueOk(s.q) && StreamOk(s.q) && s.started && Synced(s) && started && dma < |s.ring| ==>
                Steady() && InStep()
    {
      FormedBounds(s);
      hide Formed, Shape, Ready, Interrupted, QueueOk, StreamOk, InSync, PlayFits, RunsDry;
      if QueueOk(s.q) {
        PlainInterrupt(s, Value(), dma, late, silence);
        SimpleStreamOk(queue.model);
      }
      if StreamOk(s.q) && PlayFits(s.q, Counted(s, dma, late)) {
        StreamShape(s.q);
        InterruptInSync(s, Value(), dma, late, silence);
      }
    }

    // -------------------------------------------------------------------------
    // The client's calls
    // -------------------------------------------------------------------------

    /** Sets the cursors back and fills the ring from its start. */
    method Start()
      requires Sound() && !started
      requires queue.model.cur < |queue.model.hdrs| || 0 < queue.model.buffered
      modifies this`transferCursor, this`lastDMACursor, this`started, ring, queue`pCurrent, queue`pLoopStart,
               queue`loopCount, queue`loopDecrement, queue`bytesInCurrent, queue`bytesBuffered, queue`model
      ensures Sound() && started && Restarted(old(Value()), Value())
      ensures queue.model.head == old(queue.model).head && |queue.model.hdrs| == |old(queue.model).hdrs|
      ensures old(Plain()) ==> Plain()
      ensures old(Steady()) ==> Steady() && (InStep() <==> RestartKeepsPlace(old(ring[..]), old(queue.model)))
    {
      hide Chain, Represent, StrayFits, PullMany, Marks, AllPlayable, LoopsAhead, QueueOk, StreamOk, InSync, Wrote,
           RestartKeepsPlace, Ready, Shape;
      ghost var s := Value();
      FormedNow();
      transferCursor := 0;
      lastDMACursor := 0;
      Refill(ring.Length);
      started := true;
      assert Restarted(s, Value());
      if QueueOk(s.q) {
        PullManyOk(s.q, ring.Length);
        SimpleStreamOk(queue.model);
      }
      if StreamOk(s.q) {
        RestartInStep(s, Value());
      }
    }

    /** The second half of AddBuffer: a running stream takes the new data at once, a stopped
        one that is not paused is set going. */
    method Serve(dma: nat, late: bool)
      requires Valid() && dma <= ring.Length && (started ==> Behind(queue.model, Counted(Value(), dma, late)))
      requires !paused && !started ==> queue.model.cur < |queue.model.hdrs|
      modifies this, queue, queue.live, queue.Strays(), ring
      ensures Valid() && NoStall() && paused == old(paused)
      ensures Served(old(Value()), Value(), dma, late, silence)
      ensures queue.HandedBack(old(queue.live), old(queue.calledBack)) && queue.AllReturned(old(queue.live))
      ensures old(Plain()) ==> Plain()
      ensures old(Steady() && (started ==> PlayFits(queue.model, Counted(Value(), dma, late)))) ==> Steady()
      ensures old(started && Steady() && PlayFits(queue.model, Counted(Value(), dma, late)) && InStep()) && started ==>
                (InStep() <==> old(Tells(Value(), dma, late)))
      ensures old(started && Plain() && InStep()) && started && dma < ring.Length ==> InStep()
      ensures old(!started && Steady()) && started ==>
                (InStep() <==> RestartKeepsPlace(old(ring[..]), old(queue.model)))
    {
      hide Chain, Represent, StrayFits, PullMany, Shape, QueueOk, StreamOk, InSync, Wrote, RestartKeepsPlace, Ready,
           Walkable, Behind, AdvanceOf, PlayFits, Interrupted, Restarted, Tells;
      if !paused {
        if started {
          HandleInterrupt(dma, late);
        } else {
          Start();
        }
      }
    }

    /** The queue with the header in it, and the stream with that. */
    ghost function Added(h: WaveHdr): Queue
      reads queue, h
      requires CanAdd(queue.model, h.beginLoop)
    {
      Add(queue.model, h.data, h.beginLoop, h.endLoop, h.loops)
    }

    ghost function Offered(h: WaveHdr): Stream
      reads this, queue, ring, h
      requires CanAdd(queue.model, h.beginLoop)
    {
      Value().(q := Added(h))
    }

    ghost predicate PlainWith(h: WaveHdr)
      reads queue, h
    {
      Plain() && Simple(NewHdr(h.data, h.beginLoop, h.endLoop, h.loops))
    }

    ghost predicate SteadyWith(h: WaveHdr)
      reads queue, h
    {
      Steady() && !TooLate(queue.model, h.beginLoop)
    }

    lemma PlainAdded(h: WaveHdr)
      requires Playable(NewHdr(h.data, h.beginLoop, h.endLoop, h.loops))
      ensures PlainWith(h) ==>
                SteadyWith(h) && CanAdd(queue.model, h.beginLoop) && QueueOk(Added(h)) && StreamOk(Added(h))
    {
      hide StreamOk, QueueOk, Playable, Simple, Add, CanAdd;
      if PlainWith(h) {
        AddKeepsQueueOk(queue.model, h.data, h.beginLoop, h.endLoop, h.loops);
        SimpleCanAdd(queue.model, h.beginLoop);
        SimpleStreamOk(Added(h));
      }
    }

    lemma SteadyAdded(h: WaveHdr)
      requires Valid() && Playable(NewHdr(h.data, h.beginLoop, h.endLoop, h.loops))
      requires CanAdd(queue.model, h.beginLoop)
      ensures Added(h).cur < |Added(h).hdrs|
      ensures SteadyWith(h) ==>
                && StreamOk(Added(h)) && (InStep() ==> Synced(Offered(h)))
                && forall bytes: seq<Byte> :: RestartKeepsPlace(bytes, Added(h)) <==> queue.model.buffered == 0
    {
      hide Chain, Represent, StrayFits, Marked, Points, Shape, StreamOk, InSync, Playable, Add, CanAdd,
           RestartKeepsPlace;
      queue.ValidShape();
      AddMakesCurrent(queue.model, h.data, h.beginLoop, h.endLoop, h.loops);
      AddMakesRestart(queue.model, h.data, h.beginLoop, h.endLoop, h.loops);
      if SteadyWith(h) {
        AddKeepsStreamOk(queue.model, h.data, h.beginLoop, h.endLoop, h.loops);
        if InStep() && started {
          SyncIgnoresQueuing(ring[..], lastDMACursor, transferCursor, queue.model, Added(h));
        }
      }
    }

    /** The first half of AddBuffer: queuing alone leaves the stream as it was. */
    method Enlist(h: WaveHdr) returns (r: AddResult)
      requires Valid() && !queue.Consulted(h) && Playable(NewHdr(h.data, h.beginLoop, h.endLoop, h.loops))
      modifies queue, queue.live, h
      ensures Valid() && queue.calledBack == old(queue.calledBack) && queue.Strays() <= old(queue.Strays())
      ensures r == if old(h.queued) then Refused else if !CanAdd(old(queue.model), h.beginLoop) then Faulted else Queued
      ensures r == Queued ==>
        && Value() == old(Offered(h)) && queue.live == old(queue.live) + [h]
        && queue.model.cur < |queue.model.hdrs|
      ensures r != Queued ==> Value() == old(Value()) && queue.live == old(queue.live)
      ensures old(PlainWith(h)) ==> Plain() && r != Faulted && old(SteadyWith(h))
      ensures r == Queued && old(SteadyWith(h)) ==>
                && Steady() && (old(InStep()) ==> InStep())
                && forall bytes: seq<Byte> :: RestartKeepsPlace(bytes, queue.model) <==> old(queue.model).buffered == 0
    {
      hide Chain, Represent, StrayFits, Marked, Points, Marks, AllPlayable, LoopsAhead, Ready, Shape, QueueOk,
           StreamOk, InSync, Playable, Simple, Add, Walkable, CanAdd, RestartKeepsPlace;
      PlainAdded(h);
      if CanAdd(queue.model, h.beginLoop) {
        SteadyAdded(h);
      }
      r := queue.AddBuffer(h);
    }

    /** Queues a header and serves the stream.  It stays a stream if the header does not come
        too late for its loop; whether it is in step is then as in an interrupt, or as after a
        restart. */
    method AddBuffer(h: WaveHdr, dma: nat, late: bool) returns (r: AddResult)
      requires Valid() && dma <= ring.Length && !queue.Consulted(h)
      requires Playable(NewHdr(h.data, h.beginLoop, h.endLoop, h.loops))
      requires PlainWith(h)
               || (started && CanAdd(queue.model, h.beginLoop) ==> Behind(Added(h), Counted(Value(), dma, late)))
      modifies this, queue, queue.live, queue.Strays(), ring, h
      ensures Valid() && paused == old(paused)
      ensures r == if old(h.queued) then Refused else if !CanAdd(old(queue.model), h.beginLoop) then Faulted else Queued
      ensures r == Queued ==> NoStall() && queue.HandedBack(old(queue.live) + [h], old(queue.calledBack))
      ensures r == Queued ==> queue.AllReturned(old(queue.live) + [h])
      ensures r == Queued ==> Served(old(Offered(h)), Value(), dma, late, silence)
      ensures r != Queued ==> Value() == old(Value()) && queue.live == old(queue.live)
      ensures old(PlainWith(h)) ==> Plain() && r != Faulted
      ensures r == Queued && old(PlainWith(h) && started && InStep()) && started && dma < ring.Length ==> InStep()
      ensures r == Queued && old(SteadyWith(h) && !started) ==>
                Steady() && (started ==> (InStep() <==> old(queue.model).buffered == 0))
      ensures r == Queued && old(SteadyWith(h) && started) && old(PlayFits(Added(h), Counted(Value(), dma, late))) ==>
                Steady() && (old(InStep()) && started ==> (InStep() <==> old(Tells(Offered(h), dma, late))))
    {
      hide Chain, Represent, StrayFits, Marked, Points, Marks, AllPlayable, LoopsAhead, Ready, Shape, QueueOk,
           StreamOk, InSync, PullMany, Playable, Simple, Add, Behind, Walkable, PlayFits, CanAdd, RestartKeepsPlace,
           Interrupted, Restarted, Tells, Served, Synced, NewHdr;
      r := Enlist(h);
      if r == Queued {
        if Plain() {
          SimpleBehind(queue.model, Counted(Value(), dma, late));
        }
        Serve(dma, late);
      }
    }

    method Pause()
      requires Valid()
      modifies this`started, this`paused
      ensures Valid() && NoStall() && Value() == old(Value()).(paused := true, started := false)
    {
      if !paused {
        Stop();
        paused := true;
      }
    }

    /** Starts a stopped stream unless its queue is empty. */
    method StartUnlessEmpty()
      requires Sound() && !started
      modifies `started, `transferCursor, `lastDMACursor, ring, queue`pCurrent, queue`pLoopStart,
               queue`loopCount, queue`loopDecrement, queue`bytesInCurrent, queue`bytesBuffered, queue`model
      ensures Sound() && (old(Plain()) ==> Plain()) && (old(Steady()) ==> Steady())
      ensures started <==> !(old(queue.model).cur == |old(queue.model).hdrs| && old(queue.model).buffered <= 0)
      ensures !started ==> Value() == old(Value())
      ensures started ==> Restarted(old(Value()), Value())
      ensures queue.model.head == old(queue.model).head && |queue.model.hdrs| == |old(queue.model).hdrs|
      ensures old(Steady()) && started ==> (InStep() <==> RestartKeepsPlace(old(ring[..]), old(queue.model)))
    {
      hide PullMany, Shape, QueueOk, StreamOk, InSync, RestartKeepsPlace, Ready, Chain, Represent, StrayFits, Marked,
           Points, Restarted;
      queue.ValidShape();
      var empty := queue.IsEmpty();
      if !empty {
        Start();
      }
    }

    /** Resuming restarts a stream that is not empty, and fills the ring afresh, so bytes that
        were buffered when the stream was paused are never played, though the queue goes on
        counting them.  The stream runs on as it should exactly if it is not stuck, as with
        simple headers it never is; and it keeps its place exactly if it had nothing buffered,
        or a full ring that happens to lie right with nothing to follow. */
    method Unpause()
      requires Valid()
      modifies `paused, `started, `transferCursor, `lastDMACursor, ring, queue`pCurrent, queue`pLoopStart,
               queue`loopCount, queue`loopDecrement, queue`bytesInCurrent, queue`bytesBuffered, queue`model
      ensures Valid() && !paused && (old(Plain()) ==> Plain()) && (old(Steady()) ==> Steady())
      ensures Resumed(old(Value()), Value())
      ensures old(paused) ==> (NoStall() <==> !Stuck(old(queue.model)))
      ensures old(Plain() && paused) ==> NoStall()
      ensures old(Steady() && paused) && started ==>
        (InStep() <==> RestartKeepsPlace(old(ring[..]), old(queue.model)))
    {
      hide PullMany, Shape, QueueOk, StreamOk, InSync, RestartKeepsPlace, Ready, Chain, Represent, StrayFits, Marked,
           Points, Filled;
      queue.ValidShape();
      ShapeCursor(queue.model);
      if paused {
        if Plain() {
          NotDoneNotEmpty(queue.model);
        }
        ghost var s := Value();
        StartUnlessEmpty();
        if started {
          RestartUnpaused(s, Value());
        }
        paused := false;
      }
    }

    /** Everything queued goes back to the client and the stream is left stopped and
        unpaused, as playback requires. */
    method Reset()
      requires Valid()
      modifies this, queue, queue.live, ring
      ensures Valid() && NoStall() && Plain()
      ensures Value() == old(Value()).(q := EmptyQueue(old(queue.model).loopDec), cursor := 0, started := false,
                                       paused := false)
      ensures queue.live == [] && queue.calledBack == old(queue.calledBack) + old(queue.live)
      ensures queue.AllReturned(old(queue.live))
    {
      hide Chain, Represent, StrayFits, PullMany, Shape, QueueOk, StreamOk, Ready, Walkable, Filled, Returned, InSync,
           RestartKeepsPlace, Marked, Points, Restarted;
      Stop();
      GiveBack();
      Unpause();
      transferCursor := 0;
    }

    /** The part of Reset that empties the queue. */
    method GiveBack()
      requires Valid() && !started
      modifies queue, queue.live
      ensures Valid() && Plain() && Steady() && Value() == old(Value()).(q := EmptyQueue(old(queue.model).loopDec))
      ensures queue.live == [] && queue.calledBack == old(queue.calledBack) + old(queue.live)
      ensures queue.AllReturned(old(queue.live))
    {
      hide Chain, Represent, StrayFits, PullMany, Shape, QueueOk, StreamOk, Ready, Walkable, Returned, InSync, Marked,
           Points;
      queue.ValidShape();
      EmptyQueueOk(queue.model.loopDec);
      SimpleStreamOk(EmptyQueue(queue.model.loopDec));
      queue.Reset();
    }
  }

  lemma SimpleBehind(q: Queue, adv: nat)
    requires QueueOk(q)
    ensures PlayFits(q, adv) && Behind(q, adv)
  {
    hide QueueOk, Behind, CountsAhead, CountsAll;
    AdvanceKeepsQueueOk(q, adv);
  }
}
