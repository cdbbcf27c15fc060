/** Every run of an output stream, to the bytes the DMA engine passes over: what is heard is the
    queued stream, as long as the engine is never outrun and the stream never resumed with bytes
    buffered. */
module StreamRuns {
  import opened WaveModel
  import opened WaveStream
  import opened WaveWalk
  import opened WaveCost
  import opened WavePlay
  import opened WavePull
  import opened RingModel
  import opened StreamModel

  datatype Op =
    | QueueOp(data: seq<Byte>, begin: bool, end: bool, loops: nat, dma: nat, late: bool)
    | InterruptOp(dma: nat, late: bool)
    | PauseOp
    | ResumeOp
    | ResetOp

  /** The stream and the bytes the engine has passed over, by its cursor readings, since the
      queue was last reset.  `smooth` tells whether since then every reading let what was played
      be counted and the cursors go on telling what is buffered, no header came too late for its
      loop, and no restart lost the place; `calm`, whether all headers were simple, no reading
      found the engine past the data or was equal to the size of the ring, and the stream was
      resumed with nothing buffered only. */
  datatype Session = Session(s: Stream, heard: seq<Byte>, smooth: bool, calm: bool)

  function NewSession(ring: seq<Byte>): Session {
    Session(Stream(ring, 0, 0, EmptyQueue(0), false, false), [], true, true)
  }

  /** The bytes the engine has passed over since the cursor was last read. */
  function Passed(s: Stream, dma: nat): seq<Byte>
    requires 0 < |s.ring| && s.last <= |s.ring| && dma <= |s.ring|
  {
    seq(Moved(|s.ring|, s.last, dma), i requires 0 <= i < Moved(|s.ring|, s.last, dma) =>
      s.ring[Wrap(|s.ring|, s.last + i)])
  }

  ghost predicate Inv(w: Session) {
    && Formed(w.s) && (w.s.paused ==> !w.s.started)
    && (w.smooth ==> StreamOk(w.s.q) && Synced(w.s) && w.heard == Pulled(w.s.q)[..|Pulled(w.s.q)| - w.s.q.buffered])
    && (w.calm ==> w.smooth && QueueOk(w.s.q) && (w.s.q.head < |w.s.q.hdrs| ==> w.s.started || w.s.paused))
  }

  function Offer(s: Stream, op: Op): Stream
    requires op.QueueOp? && CanAdd(s.q, op.begin)
  {
    s.(q := Add(s.q, op.data, op.begin, op.end, op.loops))
  }

  /** What the client keeps to, and the driver asserts of the cursor and of playing. */
  ghost predicate Legal(s: Stream, op: Op)
    requires Formed(s)
  {
    match op
    case QueueOp(data, begin, end, loops, dma, late) =>
      && Playable(NewHdr(data, begin, end, loops)) && CanAdd(s.q, begin) && dma <= |s.ring|
      && (s.started ==> Behind(Offer(s, op).q, Counted(s, dma, late)))
    case InterruptOp(dma, late) => s.started && dma <= |s.ring| && Behind(s.q, Counted(s, dma, late))
    case _ => true
  }

  ghost predicate SmoothReading(s: Stream, s': Stream, dma: nat, late: bool)
    requires Formed(s)
  {
    && !Underflow(|s.ring|, s.last, s.cursor, dma, late) && PlayFits(s.q, Counted(s, dma, late))
    && (s'.started ==> Tells(s, dma, late))
  }

  predicate CalmReading(s: Stream, dma: nat, late: bool)
    requires Formed(s)
  {
    !Underflow(|s.ring|, s.last, s.cursor, dma, late) && dma < |s.ring|
  }

  predicate Empty(q: Queue) { q.cur == |q.hdrs| && q.buffered <= 0 }

  ghost predicate Step(w: Session, op: Op, w': Session, silence: Byte)
    requires Formed(w.s) && Legal(w.s, op)
  {
    match op
    case QueueOp(data, begin, end, loops, dma, late) =>
      var a := Offer(w.s, op);
      && Served(a, w'.s, dma, late, silence)
      && w'.heard == (if a.started && !a.paused then w.heard + Passed(a, dma) else w.heard)
      && w'.smooth == (w.smooth && !TooLate(w.s.q, begin)
                       && (a.paused || if a.started then Formed(a) && SmoothReading(a, w'.s, dma, late)
                                       else w.s.q.buffered == 0))
      && w'.calm == (w.calm && Simple(NewHdr(data, begin, end, loops))
                     && (a.started && !a.paused ==> Formed(a) && CalmReading(a, dma, late)))
    case InterruptOp(dma, late) =>
      && Interrupted(w.s, w'.s, dma, late, silence)
      && w'.heard == w.heard + Passed(w.s, dma)
      && w'.smooth == (w.smooth && SmoothReading(w.s, w'.s, dma, late))
      && w'.calm == (w.calm && CalmReading(w.s, dma, late))
    case PauseOp => w' == w.(s := w.s.(paused := true, started := false))
    case ResumeOp =>
      && Resumed(w.s, w'.s) && w'.heard == w.heard
      && w'.smooth == (w.smooth && (w.s.paused && !Empty(w.s.q) ==>
                                      StreamOk(w.s.q) && RestartKeepsPlace(w.s.ring, w.s.q)))
      && w'.calm == (w.calm && (w.s.paused && !Empty(w.s.q) ==> w.s.q.buffered == 0))
    case ResetOp =>
      && w'.s == w.s.(q := EmptyQueue(w.s.q.loopDec), cursor := 0, started := false, paused := false)
      && w' == Session(w'.s, [], true, true)
  }

  // ---------------------------------------------------------------------------
  // Interrupts
  // ---------------------------------------------------------------------------

  lemma PaddedLength(s: Stream, ring: seq<Byte>, dma: nat, late: bool, silence: Byte)
    requires s.last <= |s.ring| && s.cursor <= |s.ring|
    requires Padded(s.ring, ring, s.last, s.cursor, dma, late, silence)
    ensures |ring| == |s.ring|
  {
  }

  lemma FillForms(c: Stream, room: nat, s': Stream)
    requires Formed(c) && room <= |c.ring| && Filled(c, room, s')
    ensures Formed(s') && s' == c.(ring := s'.ring, cursor := s'.cursor, q := s'.q) && s'.q.head == c.q.head
    ensures |s'.q.hdrs| == |c.q.hdrs| && |s'.ring| == |c.ring|
  {
    FormedBounds(c);
    hide PullMany, Ready, Shape;
    PullManyFrame(c.q, room);
    PullManyKeepsReady(c.q, room);
  }

  lemma InterruptForms(s: Stream, s': Stream, dma: nat, late: bool, silence: Byte)
    requires Formed(s) && dma <= |s.ring| && Behind(s.q, Counted(s, dma, late))
    requires Interrupted(s, s', dma, late, silence)
    ensures Formed(s') && s'.paused == s.paused && (s'.started ==> s.started)
    ensures s.started && !s'.started ==> s'.q.head == |s'.q.hdrs|
  {
    FormedBounds(s);
    hide Formed, Shape, Ready, Advance, Filled, Padded, Behind, RoomOf, AdvanceOf, Underflow;
    var adv, room := Counted(s, dma, late), RoomIn(s, dma, late);
    AdvanceKeepsShapeIff(s.q, adv);
    AdvanceKeepsReady(s.q, adv);
    ghost var ring: seq<Byte> :|
      && Padded(s.ring, ring, s.last, s.cursor, dma, late, silence)
      && var c := CountedAs(s, dma, late, ring);
         if c.q.head == |c.q.hdrs| then s' == c.(started := false)
         else 0 <= room && Filled(c, room, s');
    PaddedLength(s, ring, dma, late, silence);
    var c := CountedAs(s, dma, late, ring);
    CursorBounds(s, dma, late);
    FormedIs(c);
    if c.q.head < |c.q.hdrs| {
      FillForms(c, room, s');
    } else {
      FormedIs(s');
    }
  }

  lemma CursorBounds(s: Stream, dma: nat, late: bool)
    requires s.last <= |s.ring| && s.cursor <= |s.ring| && dma <= |s.ring|
    ensures CursorIn(s, dma, late) <= |s.ring| && RoomIn(s, dma, late) <= |s.ring|
  {
  }

  lemma FormedIs(s: Stream)
    requires 0 < |s.ring| && s.last <= |s.ring| && s.cursor <= |s.ring| && Shape(s.q) && Ready(s.q)
    ensures Formed(s)
  {
  }

  /** Between an interrupt and a reading at most an eighth of the ring further the engine passes
      over what is buffered, in order, and then over silence: never over what an earlier round
      left in the ring. */
  lemma PassesStreamThenSilence(s: Stream, s': Stream, dma: nat, late: bool, silence: Byte, next: nat)
    requires Formed(s) && dma <= |s.ring| && Interrupted(s, s', dma, late, silence)
    requires StreamOk(s.q) && PlayFits(s.q, Counted(s, dma, late)) && s.started && Synced(s)
    requires next <= |s.ring| && Moved(|s.ring|, dma, next) <= |s.ring| / 8
    ensures |s'.ring| == |s.ring| && s'.last == dma && StreamOk(s'.q) && 0 <= s'.q.buffered <= |Pulled(s'.q)|
    ensures var due := Pulled(s'.q)[|Pulled(s'.q)| - s'.q.buffered..];
            && |Passed(s', next)| == Moved(|s.ring|, dma, next)
            && forall i: nat | i < |Passed(s', next)| :: Passed(s', next)[i] == if i < |due| then due[i] else silence
  {
    FormedBounds(s);
    InterruptFrame(s, s', dma, late, silence);
    forall i: nat | i < |Passed(s', next)|
      ensures var due := Pulled(s'.q)[|Pulled(s'.q)| - s'.q.buffered..];
              Passed(s', next)[i] == if i < |due| then due[i] else silence
    {
      PassesAt(s, s', dma, late, silence, next, i);
    }
  }

  lemma PassedAt(s: Stream, dma: nat, i: nat)
    requires 0 < |s.ring| && s.last <= |s.ring| && dma <= |s.ring| && i < Moved(|s.ring|, s.last, dma) <= |s.ring|
    ensures i < |s.ring| && Passed(s, dma)[i] == From(s.ring, s.last, i)
  {
  }

  lemma PassesAt(s: Stream, s': Stream, dma: nat, late: bool, silence: Byte, next: nat, i: nat)
    requires Formed(s) && dma <= |s.ring| && Interrupted(s, s', dma, late, silence)
    requires StreamOk(s.q) && PlayFits(s.q, Counted(s, dma, late)) && s.started && Synced(s)
    requires next <= |s.ring| && i < Moved(|s.ring|, dma, next) <= |s.ring| / 8
    requires |s'.ring| == |s.ring| && s'.last == dma && StreamOk(s'.q) && 0 <= s'.q.buffered <= |Pulled(s'.q)|
    ensures var due := Pulled(s'.q)[|Pulled(s'.q)| - s'.q.buffered..];
            |s.ring| > 0 && Passed(s', next)[i] == if i < |due| then due[i] else silence
  {
    FormedBounds(s);
    hide StreamOk, Interrupted, PlayFits, Synced, Formed, Pulled, Wrap, CursorOk, Underflow, Counted;
    StreamThenSilence(s, s', dma, late, silence, i);
    PassedAt(s', next, i);
  }

  /** While it does not outrun the data, the engine passes over the bytes due. */
  lemma PassedIsDue(s: Stream, dma: nat, late: bool)
    requires 0 < |s.ring| && s.last <= |s.ring| && s.cursor <= |s.ring| && dma <= |s.ring|
    requires StreamOk(s.q) && InSync(s.ring, s.last, s.cursor, s.q)
    requires !Underflow(|s.ring|, s.last, s.cursor, dma, late)
    ensures var from := |Pulled(s.q)| - s.q.buffered;
            && 0 <= from <= from + Counted(s, dma, late) <= |Pulled(s.q)|
            && Passed(s, dma) == Pulled(s.q)[from..from + Counted(s, dma, late)]
  {
    hide StreamOk, Pulled, InSync, Wrap;
    StreamShape(s.q);
    DistanceIsBuffered(s.ring, s.last, s.cursor, s.q);
    var from, n := |Pulled(s.q)| - s.q.buffered, Counted(s, dma, late);
    forall i | 0 <= i < n
      ensures Passed(s, dma)[i] == Pulled(s.q)[from..from + n][i]
    {
      EnginePlaysTheStream(s.ring, s.last, s.cursor, s.q, i);
    }
  }

  /** What is heard of `a` grows by what is passed over, however `a` grows to `b`. */
  lemma StartGrows(a: seq<Byte>, b: seq<Byte>, heard: seq<Byte>, passed: seq<Byte>, k: int, n: nat)
    requires 0 <= k <= k + n <= |a| && a <= b
    requires heard == a[..k] && passed == a[k..k + n]
    ensures heard + passed == b[..k + n]
  {
    assert a == b[..|a|];
  }

  /** A smooth reading counts what is passed over. */
  lemma SmoothCounts(s: Stream, s': Stream, dma: nat, late: bool, silence: Byte)
    requires Formed(s) && dma <= |s.ring| && Interrupted(s, s', dma, late, silence) && s.started
    requires StreamOk(s.q) && Synced(s) && SmoothReading(s, s', dma, late)
    ensures StreamOk(s'.q) && Synced(s') && Pulled(s.q) <= Pulled(s'.q)
    ensures |Pulled(s'.q)| - s'.q.buffered == |Pulled(s.q)| - s.q.buffered + Counted(s, dma, late)
  {
    FormedBounds(s);
    StreamShape(s.q);
    hide Formed, StreamOk, CursorOk, Interrupted, Pulled, Tells, PlayFits, InSync, Underflow, Counted, Shape, Ready;
    InterruptInSync(s, s', dma, late, silence);
  }

  /** And that is what is due. */
  lemma SmoothPasses(s: Stream, s': Stream, dma: nat, late: bool) returns (k: nat, n: nat)
    requires Formed(s) && dma <= |s.ring| && s.started
    requires StreamOk(s.q) && Synced(s) && SmoothReading(s, s', dma, late)
    ensures k == |Pulled(s.q)| - s.q.buffered && n == Counted(s, dma, late) && k + n <= |Pulled(s.q)|
    ensures Passed(s, dma) == Pulled(s.q)[k..k + n]
  {
    FormedBounds(s);
    hide Formed, StreamOk, CursorOk, Pulled, Tells, PlayFits, InSync, Underflow, Passed, Counted, Shape, Ready;
    PassedIsDue(s, dma, late);
    k, n := |Pulled(s.q)| - s.q.buffered, Counted(s, dma, late);
  }

  /** So what has been heard grows by it. */
  lemma HeardGrows(s: Stream, s': Stream, heard: seq<Byte>, dma: nat, late: bool, silence: Byte)
    requires Formed(s) && dma <= |s.ring| && Interrupted(s, s', dma, late, silence) && s.started
    requires StreamOk(s.q) && Synced(s) && SmoothReading(s, s', dma, late)
    requires heard == Pulled(s.q)[..|Pulled(s.q)| - s.q.buffered]
    ensures StreamOk(s'.q) && Synced(s')
    ensures heard + Passed(s, dma) == Pulled(s'.q)[..|Pulled(s'.q)| - s'.q.buffered]
  {
    var k, n := SmoothPasses(s, s', dma, late);
    SmoothCounts(s, s', dma, late, silence);
    hide *;
    StartGrows(Pulled(s.q), Pulled(s'.q), heard, Passed(s, dma), k, n);
  }

  /** With simple headers a calm reading is smooth. */
  lemma CalmIsSmooth(s: Stream, s': Stream, dma: nat, late: bool, silence: Byte)
    requires Formed(s) && dma <= |s.ring| && Interrupted(s, s', dma, late, silence)
    requires QueueOk(s.q) && CalmReading(s, dma, late)
    ensures SmoothReading(s, s', dma, late) && QueueOk(s'.q)
  {
    FormedBounds(s);
    hide Formed, Interrupted, PlayFits, QueueOk, RunsDry;
    PlainInterrupt(s, s', dma, late, silence);
  }

  // ---------------------------------------------------------------------------
  // Every step
  // ---------------------------------------------------------------------------

  lemma InterruptKeepsInv(w: Session, dma: nat, late: bool, w': Session, silence: Byte)
    requires Inv(w) && Legal(w.s, InterruptOp(dma, late)) && Step(w, InterruptOp(dma, late), w', silence)
    ensures Inv(w')
  {
    hide Formed, StreamOk, QueueOk, Interrupted, Pulled, SmoothReading, CalmReading, Synced, Behind, Passed;
    InterruptForms(w.s, w'.s, dma, late, silence);
    if w.calm && CalmReading(w.s, dma, late) {
      CalmIsSmooth(w.s, w'.s, dma, late, silence);
    }
    if w.smooth && SmoothReading(w.s, w'.s, dma, late) {
      HeardGrows(w.s, w'.s, w.heard, dma, late, silence);
    }
  }

  /** A restart that keeps the place. */
  lemma RestartHeard(s: Stream, s': Stream, heard: seq<Byte>)
    requires Formed(s) && StreamOk(s.q) && Restarted(s, s') && !Empty(s.q) && RestartKeepsPlace(s.ring, s.q)
    requires heard == Pulled(s.q)[..|Pulled(s.q)| - s.q.buffered]
    ensures StreamOk(s'.q) && Synced(s') && heard == Pulled(s'.q)[..|Pulled(s'.q)| - s'.q.buffered]
  {
    StreamShape(s.q);
    hide Formed, StreamOk, Restarted, Pulled, RestartKeepsPlace, InSync;
    RestartInStep(s, s');
    StreamShape(s'.q);
  }

  lemma RestartForms(s: Stream, s': Stream)
    requires Formed(s) && Restarted(s, s')
    ensures Formed(s') && s'.started && s'.paused == s.paused
    ensures QueueOk(s.q) ==> QueueOk(s'.q)
  {
    FormedBounds(s);
    FormedIs(s.(last := 0, cursor := 0, started := true));
    FillForms(s.(last := 0, cursor := 0, started := true), |s.ring|, s');
    if QueueOk(s.q) {
      PullManyOk(s.q, |s.ring|);
    }
    hide QueueOk, PullMany, Formed, Shape, Ready;
  }

  lemma ResumeKeepsInv(w: Session, w': Session, silence: Byte)
    requires Inv(w) && Step(w, ResumeOp, w', silence)
    ensures Inv(w')
  {
    FormedBounds(w.s);
    hide StreamOk, QueueOk, Pulled, RestartKeepsPlace, Restarted, Synced, Shape, Ready, Formed, CursorOk, Empty, Stuck;
    if w.s.paused {
      var s := w.s.(paused := false);
      FormedIs(s);
      if Empty(w.s.q) {
        FormedIs(w'.s);
        if w.calm {
          StuckNever(w.s.q);
        }
      } else {
        RestartForms(s, w'.s);
        if w.calm && w.s.q.buffered == 0 {
          KeepsPlaceEmpty(w.s.ring, w.s.q);
        }
        if w'.smooth {
          RestartHeard(s, w'.s, w.heard);
        }
      }
    }
  }

  lemma KeepsPlaceEmpty(ring: seq<Byte>, q: Queue)
    requires QueueOk(q) && q.buffered == 0
    ensures StreamOk(q) && RestartKeepsPlace(ring, q)
  {
    SimpleStreamOk(q);
  }

  lemma StuckNever(q: Queue)
    requires QueueOk(q) && Empty(q)
    ensures q.head == |q.hdrs|
  {
    NotDoneNotEmpty(q);
    SimpleStreamOk(q);
    StreamShape(q);
  }

  /** A header queued leaves the session where it was. */
  lemma OfferKeeps(w: Session, op: Op)
    requires Inv(w) && op.QueueOp? && Legal(w.s, op)
    ensures var a := Offer(w.s, op);
            && Formed(a) && a.q.cur < |a.q.hdrs| && a.q.buffered == w.s.q.buffered
            && (w.smooth && !TooLate(w.s.q, op.begin) ==>
                  && StreamOk(a.q) && Synced(a) && w.heard == Pulled(a.q)[..|Pulled(a.q)| - a.q.buffered]
                  && (w.s.q.buffered == 0 ==> RestartKeepsPlace(a.ring, a.q)))
            && (w.calm && Simple(NewHdr(op.data, op.begin, op.end, op.loops)) ==>
                  QueueOk(a.q) && !TooLate(w.s.q, op.begin))
  {
    FormedBounds(w.s);
    hide StreamOk, QueueOk, Pulled, InSync, Shape, Ready, Add, Simple, Playable, TooLate, RestartKeepsPlace, CanAdd,
         Behind;
    var q, a := w.s.q, Offer(w.s, op);
    AddKeepsAll(q, op.data, op.begin, op.end, op.loops);
    AddMakesCurrent(q, op.data, op.begin, op.end, op.loops);
    AddMakesRestart(q, op.data, op.begin, op.end, op.loops);
    AddCounts(q, op);
    FormedIs(a);
    if w.smooth && !TooLate(q, op.begin) {
      AddKeepsStreamOk(q, op.data, op.begin, op.end, op.loops);
      if w.s.started {
        SyncIgnoresQueuing(w.s.ring, w.s.last, w.s.cursor, q, a.q);
      }
    }
    if w.calm && Simple(NewHdr(op.data, op.begin, op.end, op.loops)) {
      AddKeepsQueueOk(q, op.data, op.begin, op.end, op.loops);
    }
  }

  lemma AddCounts(q: Queue, op: Op)
    requires op.QueueOp? && CanAdd(q, op.begin)
    ensures Add(q, op.data, op.begin, op.end, op.loops).buffered == q.buffered
  {
  }

  lemma QueueKeepsInv(w: Session, op: Op, w': Session, silence: Byte)
    requires Inv(w) && op.QueueOp? && Legal(w.s, op) && Step(w, op, w', silence)
    ensures Inv(w')
  {
    hide StreamOk, QueueOk, Pulled, RestartKeepsPlace, Restarted, Interrupted, InSync, Add, Simple, Playable,
         TooLate, CanAdd, Behind, Passed, SmoothReading, CalmReading, Formed, Synced;
    OfferKeeps(w, op);
    var a := Offer(w.s, op);
    if a.paused {
    } else if a.started {
      InterruptForms(a, w'.s, op.dma, op.late, silence);
      if w'.calm {
        CalmIsSmooth(a, w'.s, op.dma, op.late, silence);
      }
      if w'.smooth {
        HeardGrows(a, w'.s, w.heard, op.dma, op.late, silence);
      }
    } else {
      RestartForms(a, w'.s);
      if w'.calm {
        StoppedIsDone(w);
      }
      if w'.smooth {
        RestartHeard(a, w'.s, w.heard);
      }
    }
  }

  /** With simple headers a stream that is stopped but not paused has nothing buffered. */
  lemma StoppedIsDone(w: Session)
    requires Inv(w) && w.calm && !w.s.started && !w.s.paused
    ensures w.s.q.buffered == 0
  {
    NotDoneNotEmpty(w.s.q);
    SimpleStreamOk(w.s.q);
    StreamShape(w.s.q);
  }

  lemma StepKeepsInv(w: Session, op: Op, w': Session, silence: Byte)
    requires Inv(w) && Legal(w.s, op) && Step(w, op, w', silence)
    ensures Inv(w')
  {
    match op
    case QueueOp(_, _, _, _, _, _) => QueueKeepsInv(w, op, w', silence);
    case InterruptOp(dma, late) => InterruptKeepsInv(w, dma, late, w', silence);
    case PauseOp =>
    case ResumeOp => ResumeKeepsInv(w, w', silence);
    case ResetOp => ResetKeepsInv(w.s, w'.s);
  }

  lemma ResetKeepsInv(s: Stream, s': Stream)
    requires Formed(s) && s' == s.(q := EmptyQueue(s.q.loopDec), cursor := 0, started := false, paused := false)
    ensures Inv(Session(s', [], true, true))
  {
    EmptyQueueOk(s.q.loopDec);
    SimpleStreamOk(EmptyQueue(s.q.loopDec));
    StreamShape(EmptyQueue(s.q.loopDec));
    FormedIs(s');
    hide StreamOk, QueueOk, Shape, Ready, Formed, Pulled;
  }

  // ---------------------------------------------------------------------------
  // Every run
  // ---------------------------------------------------------------------------

  /** `w` is where the run `ops` leads from `from`, every operation being legal when made. */
  ghost predicate Reaches(from: Session, ops: seq<Op>, w: Session, silence: Byte)
    requires Formed(from.s)
    decreases |ops|
  {
    if ops == [] then w == from
    else
      && Legal(from.s, ops[0])
      && exists next: Session ::
           Step(from, ops[0], next, silence) && Formed(next.s) && Reaches(next, ops[1..], w, silence)
  }

  lemma {:induction false} RunKeepsInv(from: Session, ops: seq<Op>, w: Session, silence: Byte)
    requires Inv(from) && Reaches(from, ops, w, silence)
    ensures Inv(w)
    decreases |ops|
  {
    if ops != [] {
      var next: Session :|
        Step(from, ops[0], next, silence) && Formed(next.s) && Reaches(next, ops[1..], w, silence);
      StepKeepsInv(from, ops[0], next, silence);
      RunKeepsInv(next, ops[1..], w, silence);
    }
  }

  lemma BeginsFormed(ring: seq<Byte>)
    requires ring != []
    ensures Inv(NewSession(ring))
  {
    hide StreamOk, QueueOk, Shape, Ready, Formed, Inv;
    var s := NewSession(ring).s;
    EmptyQueueOk(0);
    SimpleStreamOk(EmptyQueue(0));
    StreamShape(EmptyQueue(0));
    FormedIs(s);
    ResetKeepsInv(s, s);
  }

  /** `w` is reached from a new stream over `ring`. */
  ghost predicate Run(ring: seq<Byte>, ops: seq<Op>, w: Session, silence: Byte) {
    ring != [] && (BeginsFormed(ring); Reaches(NewSession(ring), ops, w, silence))
  }

  /** In every smooth run what the engine has passed over is a prefix of the queued stream, and
      all of it once nothing is buffered or left to copy; and while the engine runs, ring and
      queue are in step. */
  lemma EveryRunIsHeard(ring: seq<Byte>, ops: seq<Op>, w: Session, silence: Byte)
    requires Run(ring, ops, w, silence) && w.smooth
    ensures StreamOk(w.s.q) && Synced(w.s)
    ensures forall k: nat | w.s.q.passes < k :: w.heard <= Meaning(w.s.q.hdrs, k)
    ensures Empty(w.s.q) ==> forall k: nat :: w.heard == Meaning(w.s.q.hdrs, k)
  {
    hide StreamOk, QueueOk, Formed, Reaches, Synced, Meaning;
    BeginsFormed(ring);
    RunKeepsInv(NewSession(ring), ops, w, silence);
    HeardIsPrefix(w);
  }

  lemma HeardIsPrefix(w: Session)
    requires Inv(w) && w.smooth
    ensures forall k: nat | w.s.q.passes < k :: w.heard <= Meaning(w.s.q.hdrs, k)
    ensures Empty(w.s.q) ==> forall k: nat :: w.heard == Meaning(w.s.q.hdrs, k)
  {
    StreamShape(w.s.q);
    hide Pulled, Meaning, StreamOk, Formed, QueueOk;
    forall k: nat
      ensures w.s.q.passes < k ==> w.heard <= Meaning(w.s.q.hdrs, k)
      ensures Empty(w.s.q) ==> w.heard == Meaning(w.s.q.hdrs, k)
    {
      PulledOf(w.s.q, k);
      if Empty(w.s.q) {
        assert Pulled(w.s.q)[..|Pulled(w.s.q)|] == Pulled(w.s.q);
      }
    }
  }

  lemma PulledOf(q: Queue, k: nat)
    requires StreamOk(q)
    ensures CursorOk(q) && (q.passes < k ==> Pulled(q) <= Meaning(q.hdrs, k))
    ensures q.cur == |q.hdrs| ==> Pulled(q) == Meaning(q.hdrs, k)
  {
    PulledIsPrefix(q, k);
  }

  /** With single headers and one-header loops it is enough that the run is calm; and then all
      of the stream has been heard once every header is back with the client. */
  lemma EveryCalmRunIsHeard(ring: seq<Byte>, ops: seq<Op>, w: Session, silence: Byte)
    requires Run(ring, ops, w, silence) && w.calm
    ensures w.smooth && QueueOk(w.s.q)
    ensures forall k: nat | w.s.q.passes < k :: w.heard <= Meaning(w.s.q.hdrs, k)
    ensures w.s.q.head == |w.s.q.hdrs| ==> forall k: nat :: w.heard == Meaning(w.s.q.hdrs, k)
    ensures w.s.q.head < |w.s.q.hdrs| ==> w.s.started || w.s.paused
  {
    hide StreamOk, QueueOk, Formed, Reaches, Synced, Meaning;
    BeginsFormed(ring);
    RunKeepsInv(NewSession(ring), ops, w, silence);
    HeardIsPrefix(w);
    DoneIsEmpty(w.s.q);
  }

  lemma DoneIsEmpty(q: Queue)
    requires QueueOk(q)
    ensures q.head == |q.hdrs| ==> Empty(q)
  {
    NotDoneNotEmpty(q);
    SimpleStreamOk(q);
    StreamShape(q);
  }
}
