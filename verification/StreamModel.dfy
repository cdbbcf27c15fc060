/** An output stream as a value: the wave header queue feeding the circular DMA buffer, when
    ring and queue are in step, and what interrupts and restarts do to that (CStreamContext and
    COutputStreamContext, PCM formats).  The DMA cursor and whether too much time has passed
    since it was last read are the hardware's, and so parameters. */
module StreamModel {
  import opened WaveModel
  import opened WaveStream
  import opened WaveWalk
  import opened WaveCost
  import opened WavePlay
  import opened WaveRuns
  import opened WavePull
  import opened RingModel

  /** The bytes handed out and not yet counted as played. */
  function Pending(q: Queue): seq<Byte>
    requires CursorOk(q)
    requires q.buffered <= |Pulled(q)|
  {
    Pulled(q)[|Pulled(q)| - q.buffered..]
  }

  /** The ring and the queue agree: from the DMA cursor to the transfer cursor lie exactly
      the bytes handed out and not yet played, in order.  (A cursor reading equal to the
      buffer size does not tell a full ring from an empty one.) */
  ghost predicate InSync(ring: seq<Byte>, last: nat, cursor: nat, q: Queue)
    requires StreamOk(q)
  {
    && 0 < |ring| && last <= |ring| && cursor <= |ring|
    && 0 < q.buffered <= |ring| && q.buffered <= |Pulled(q)|
    && (last == |ring| ==> q.buffered < |ring|)
    && Wrap(|ring|, last + q.buffered) == Wrap(|ring|, cursor)
    && HoldsAt(ring, last, Pending(q))
  }

  function Silences(silence: Byte, n: nat): seq<Byte> { seq(n, _ => silence) }

  /** What GetAdvance does to the ring: nothing, or silence over all of it on underflow,
      or silence from the transfer cursor on when it is close to underflow. */
  ghost predicate Padded(r0: seq<Byte>, r1: seq<Byte>, last: nat, cursor: nat, dma: nat, late: bool, silence: Byte)
    requires last <= |r0| && cursor <= |r0|
  {
    if Underflow(|r0|, last, cursor, dma, late) then r1 == Silences(silence, |r0|)
    else if Ahead(|r0|, last, cursor, dma) <= |r0| / 8 then Wrote(r0, r1, cursor, Silences(silence, |r0| / 8))
    else r1 == r0
  }

  /** Byte `i` from `at` on, going round the ring. */
  function From(ring: seq<Byte>, at: nat, i: nat): Byte
    requires at <= |ring| && i < |ring|
  {
    ring[Wrap(|ring|, at + i)]
  }

  /** On underflow every byte is silence.  With no more than an eighth of the ring ahead, each of
      the bytes in the next eighth from the transfer cursor on is, and all others are as before;
      and otherwise all are. */
  lemma PaddedIs(r0: seq<Byte>, r1: seq<Byte>, last: nat, cursor: nat, dma: nat, late: bool, silence: Byte)
    requires 0 < |r0| && last <= |r0| && cursor <= |r0| && Padded(r0, r1, last, cursor, dma, late, silence)
    ensures |r1| == |r0|
    ensures var size := |r0|;
            if Underflow(size, last, cursor, dma, late) then forall j :: 0 <= j < size ==> r1[j] == silence
            else if Ahead(size, last, cursor, dma) <= size / 8 then
              forall i: nat | i < size :: From(r1, cursor, i) == if i < size / 8 then silence else From(r0, cursor, i)
            else forall j :: 0 <= j < size ==> r1[j] == r0[j]
  {
    hide MaxAdvance, Moved;
  }

  /** After the transfer of an interrupt, silence lies after the data up to an eighth of the ring
      beyond the reading, and after an underflow all round. */
  lemma SilenceAhead(r0: seq<Byte>, r1: seq<Byte>, r2: seq<Byte>, last: nat, cursor: nat, dma: nat, late: bool,
                     silence: Byte, data: seq<Byte>, i: nat)
    requires 0 < |r0| && last <= |r0| && cursor <= |r0| && dma <= |r0|
    requires Padded(r0, r1, last, cursor, dma, late, silence)
    requires |data| <= RoomOf(|r0|, last, cursor, dma, late)
    requires |r1| == |r0| && Wrote(r1, r2, if Underflow(|r0|, last, cursor, dma, late) then dma else cursor, data)
    requires MaxAdvance(|r0|, last, cursor) - AdvanceOf(|r0|, last, cursor, dma, late) + |data| <= i < |r0|
    requires i < |r0| / 8 || Underflow(|r0|, last, cursor, dma, late)
    ensures |r2| == |r0| && From(r2, dma, i) == silence
  {
    PaddedIs(r0, r1, last, cursor, dma, late, silence);
    if !Underflow(|r0|, last, cursor, dma, late) {
      var ahead := Ahead(|r0|, last, cursor, dma);
      RoomIsComplement(|r0|, last, cursor, dma);
      assert From(r1, cursor, i - ahead) == silence;
    }
  }

  /** In a synchronised stream the distance between the cursors is the number of bytes the
      queue counts as buffered. */
  lemma DistanceIsBuffered(ring: seq<Byte>, last: nat, cursor: nat, q: Queue)
    requires StreamOk(q) && InSync(ring, last, cursor, q)
    ensures MaxAdvance(|ring|, last, cursor) == q.buffered
  {
  }

  /** The bytes the DMA engine passes over between two readings of its cursor are the next
      bytes of the stream: those after the ones counted as played. */
  lemma EnginePlaysTheStream(ring: seq<Byte>, last: nat, cursor: nat, q: Queue, i: nat)
    requires StreamOk(q) && InSync(ring, last, cursor, q) && i < q.buffered
    ensures ring[Wrap(|ring|, last + i)] == Pulled(q)[|Pulled(q)| - q.buffered + i]
    ensures forall k: nat | q.passes < k :: Pulled(q) <= Meaning(q.hdrs, k)
    ensures QueueOk(q) ==> |Pulled(q)| - q.buffered == Played(q, q.head)
  {
    assert Pending(q)[i] == Pulled(q)[|Pulled(q)| - q.buffered + i];
    forall k: nat | q.passes < k
      ensures Pulled(q) <= Meaning(q.hdrs, k)
    {
      PulledIsPrefix(q, k);
    }
    if QueueOk(q) {
      BytesConserved(q);
    }
  }

  /** GetAdvance leaves alone the bytes between the reading and the transfer cursor. */
  lemma PaddingKeepsAt(r0: seq<Byte>, r1: seq<Byte>, last: nat, cursor: nat, dma: nat, silence: Byte, i: nat)
    requires 0 < |r0| && last <= |r0| && cursor <= |r0| && dma <= |r0|
    requires !Underflow(|r0|, last, cursor, dma, false) && Padded(r0, r1, last, cursor, dma, false, silence)
    requires i < Ahead(|r0|, last, cursor, dma) && Moved(|r0|, last, dma) + i < |r0|
    ensures |r1| == |r0| && From(r1, dma, i) == From(r0, last, Moved(|r0|, last, dma) + i)
  {
  }

  /** What is still to be played survives GetAdvance. */
  lemma PaddingKeepsPending(r0: seq<Byte>, r1: seq<Byte>, last: nat, cursor: nat, q: Queue, dma: nat, silence: Byte)
    requires StreamOk(q) && InSync(r0, last, cursor, q) && dma <= |r0|
    requires !Underflow(|r0|, last, cursor, dma, false)
    requires Padded(r0, r1, last, cursor, dma, false, silence)
    ensures var moved := Moved(|r0|, last, dma);
            && moved <= q.buffered && |r1| == |r0|
            && HoldsAt(r1, dma, Pending(q)[moved..])
  {
    hide StreamOk, Pulled;
    StreamShape(q);
    DistanceIsBuffered(r0, last, cursor, q);
    PaddedIs(r0, r1, last, cursor, dma, false, silence);
    var moved := Moved(|r0|, last, dma);
    var rest := Pending(q)[moved..];
    hide Padded, Moved, MaxAdvance, InSync;
    forall i | 0 <= i < |rest|
      ensures r1[Wrap(|r0|, dma + i)] == rest[i]
    {
      PaddingKeepsAt(r0, r1, last, cursor, dma, silence, i);
      assert From(r0, last, moved + i) == Pending(q)[moved + i];
    }
  }

  lemma PendingAfterAdvance(q: Queue, adv: nat)
    requires StreamOk(q) && adv <= q.buffered && Walkable(q.hdrs) && PlayFits(q, adv)
    ensures var s := Advance(q, adv);
            && StreamOk(s) && 0 <= s.buffered == q.buffered - adv && Pulled(s) == Pulled(q)
            && Pending(s) == Pending(q)[adv..]
  {
    hide Marks, AllPlayable, LoopsAhead, Untouched, Boundary, Base, Part, Advance;
    AdvanceKeepsStreamOk(q, adv);
  }

  lemma PendingAfterPull(s: Queue, room: nat)
    requires StreamOk(s)
    ensures var (t, data) := PullMany(s, room);
            && StreamOk(t) && 0 <= s.buffered <= |Pulled(s)| && t.buffered == s.buffered + |data|
            && t.buffered <= |Pulled(t)| && |data| <= room
            && Pending(t) == Pending(s) + data
  {
    hide Marks, AllPlayable, LoopsAhead, Untouched, Boundary, Base, Part, PullMany;
    PullManyStream(s, room);
    PullManyFrame(s, room);
  }

  /** A transfer into the room after the pending bytes extends them. */
  lemma TransferExtends(r1: seq<Byte>, r2: seq<Byte>, dma: nat, cursor: nat, s: Queue, room: nat)
    requires StreamOk(s) && 0 < |r1|
    requires dma <= |r1| && cursor <= |r1| && s.buffered + room <= |r1|
    requires Wrap(|r1|, dma + s.buffered) == Wrap(|r1|, cursor) && HoldsAt(r1, dma, Pending(s))
    requires Wrote(r1, r2, cursor, PullMany(s, room).1)
    ensures var (t, data) := PullMany(s, room);
            && StreamOk(t) && |data| <= room
            && 0 <= t.buffered <= |Pulled(t)| && t.buffered <= |r1| == |r2| && HoldsAt(r2, dma, Pending(t))
            && (InSync(r2, dma, Wrap(|r1|, cursor + |data|), t)
                <==> 0 < t.buffered && (dma < |r1| || t.buffered < |r1|))
  {
    hide Marks, AllPlayable, LoopsAhead, Untouched, Boundary, Base, Part, PullMany, Ready;
    var (t, data) := PullMany(s, room);
    PendingAfterPull(s, room);
    WroteKeeps(r1, r2, dma, Pending(s), cursor, data);
  }

  // ---------------------------------------------------------------------------
  // The stream as a value
  // ---------------------------------------------------------------------------

  /** The ring, the DMA cursor last read, the transfer cursor, the queue, and whether the DMA
      engine runs and the client has paused the stream. */
  datatype Stream = Stream(ring: seq<Byte>, last: nat, cursor: nat, q: Queue, started: bool, paused: bool)

  ghost predicate Formed(s: Stream) {
    0 < |s.ring| && s.last <= |s.ring| && s.cursor <= |s.ring| && Shape(s.q) && Ready(s.q)
  }

  ghost predicate Synced(s: Stream)
    requires StreamOk(s.q)
  {
    s.started ==> InSync(s.ring, s.last, s.cursor, s.q)
  }

  /** What an interrupt will count as played from a cursor reading, the room it will find, and
      where it will write. */
  function Counted(s: Stream, dma: nat, late: bool): nat
    requires s.last <= |s.ring|
  {
    AdvanceOf(|s.ring|, s.last, s.cursor, dma, late)
  }

  function RoomIn(s: Stream, dma: nat, late: bool): int
    requires s.last <= |s.ring|
  {
    RoomOf(|s.ring|, s.last, s.cursor, dma, late)
  }

  function CursorIn(s: Stream, dma: nat, late: bool): nat
    requires s.last <= |s.ring|
  {
    if Underflow(|s.ring|, s.last, s.cursor, dma, late) then dma else s.cursor
  }

  /** A transfer of up to `room` bytes to the transfer cursor. */
  ghost predicate Filled(s: Stream, room: nat, s': Stream) {
    && Shape(s.q) && room <= |s.ring| && s.cursor <= |s.ring|
    && var (t, data) := PullMany(s.q, room);
       && |data| <= room && Wrote(s.ring, s'.ring, s.cursor, data)
       && s' == s.(ring := s'.ring, cursor := Wrap(|s.ring|, s.cursor + |data|), q := t)
  }

  /** The stream once a reading of the cursor is counted, the ring being `ring` then. */
  ghost function CountedAs(s: Stream, dma: nat, late: bool, ring: seq<Byte>): Stream
    requires s.last <= |s.ring| && s.q.head <= |s.q.hdrs| && Walkable(s.q.hdrs)
  {
    s.(ring := ring, last := dma, cursor := CursorIn(s, dma, late), q := Advance(s.q, Counted(s, dma, late)))
  }

  /** One interrupt. */
  ghost predicate Interrupted(s: Stream, s': Stream, dma: nat, late: bool, silence: Byte) {
    && s.last <= |s.ring| && s.cursor <= |s.ring| && s.q.head <= |s.q.hdrs| && Walkable(s.q.hdrs)
    && exists ring: seq<Byte> ::
         && Padded(s.ring, ring, s.last, s.cursor, dma, late, silence)
         && var c := CountedAs(s, dma, late, ring);
            if c.q.head == |c.q.hdrs| then s' == c.(started := false)
            else 0 <= RoomIn(s, dma, late) && Filled(c, RoomIn(s, dma, late), s')
  }

  lemma InterruptedBy(s: Stream, ring: seq<Byte>, s': Stream, dma: nat, late: bool, silence: Byte)
    requires s.last <= |s.ring| && s.cursor <= |s.ring| && s.q.head <= |s.q.hdrs| && Walkable(s.q.hdrs)
    requires Padded(s.ring, ring, s.last, s.cursor, dma, late, silence)
    requires var c := CountedAs(s, dma, late, ring);
             if c.q.head == |c.q.hdrs| then s' == c.(started := false)
             else 0 <= RoomIn(s, dma, late) && Filled(c, RoomIn(s, dma, late), s')
    ensures Interrupted(s, s', dma, late, silence)
  {
    hide Padded, Filled, RoomIn, CountedAs;
  }

  /** The ring is filled from its front, and the engine set going. */
  ghost predicate Restarted(s: Stream, s': Stream) {
    Filled(s.(last := 0, cursor := 0, started := true), |s.ring|, s')
  }

  /** A header is queued and the stream served. */
  ghost predicate Served(s: Stream, s': Stream, dma: nat, late: bool, silence: Byte) {
    if s.paused then s' == s else if s.started then Interrupted(s, s', dma, late, silence) else Restarted(s, s')
  }

  lemma RestartUnpaused(s: Stream, s': Stream)
    requires Restarted(s, s')
    ensures Restarted(s.(paused := false), s'.(paused := false))
  {
  }

  /** The client resumes the stream. */
  ghost predicate Resumed(s: Stream, s': Stream) {
    if !s.paused then s' == s
    else if s.q.cur == |s.q.hdrs| && s.q.buffered <= 0 then s' == s.(paused := false)
    else Restarted(s.(paused := false), s')
  }

  // ---------------------------------------------------------------------------
  // An interrupt
  // ---------------------------------------------------------------------------

  /** After this reading the distance between the cursors will tell what is buffered: something
      is, and the reading is a position of the ring or the stream cannot fill the room. */
  ghost predicate Tells(s: Stream, dma: nat, late: bool)
    requires s.last <= |s.ring|
  {
    && (Counted(s, dma, late) < s.q.buffered || s.q.cur < |s.q.hdrs|)
    && (dma < |s.ring| || (0 <= RoomIn(s, dma, late) && RunsDry(s.q, RoomIn(s, dma, late))))
  }

  lemma {:induction false} ExpandSame(hdrs: seq<Hdr>, hdrs': seq<Hdr>, i: nat, k: nat)
    requires |hdrs'| == |hdrs| && forall i :: 0 <= i < |hdrs| ==> SameMedia(hdrs[i], hdrs'[i])
    ensures Expand(hdrs', i, k) == Expand(hdrs, i, k)
    decreases |hdrs| - i
  {
    if i < |hdrs| {
      EndsDecide(hdrs, hdrs');
      if hdrs[i].begin {
        assert After(hdrs', i) == After(hdrs, i);
        DataAgrees(hdrs, hdrs', i, After(hdrs, i));
      }
      ExpandSame(hdrs, hdrs', After(hdrs, i), k);
    }
  }

  /** Playing changes nothing about how much there is to hand out. */
  lemma RunsDrySame(q: Queue, adv: nat, n: nat)
    requires StreamOk(q) && PlayFits(q, adv)
    ensures Walkable(q.hdrs) && StreamOk(Advance(q, adv))
    ensures RunsDry(Advance(q, adv), n) <==> RunsDry(q, n)
  {
    hide Advance, PlayFits, Ready;
    AdvanceKeepsStreamOk(q, adv);
    AdvanceKeepsReady(q, adv);
    var r := Advance(q, adv);
    ExpandSame(q.hdrs, r.hdrs, 0, q.passes + n + 1);
  }

  /** The transfer in an interrupt that counts what was played. */
  lemma RefillInSync(s: Stream, r1: seq<Byte>, r2: seq<Byte>, dma: nat, late: bool, silence: Byte)
    requires 0 < |s.ring| && s.last <= |s.ring| && s.cursor <= |s.ring| && dma <= |s.ring|
    requires StreamOk(s.q) && InSync(s.ring, s.last, s.cursor, s.q) && PlayFits(s.q, Counted(s, dma, late))
    requires Padded(s.ring, r1, s.last, s.cursor, dma, late, silence)
    requires Walkable(s.q.hdrs) && StreamOk(Advance(s.q, Counted(s, dma, late)))
    requires 0 <= RoomIn(s, dma, late)
    requires Wrote(r1, r2, CursorIn(s, dma, late),
                   PullMany(Advance(s.q, Counted(s, dma, late)), RoomIn(s, dma, late)).1)
    ensures |r1| == |s.ring| && RoomIn(s, dma, late) <= |s.ring|
    ensures var c := Advance(s.q, Counted(s, dma, late));
            var (t, data) := PullMany(c, RoomIn(s, dma, late));
            && StreamOk(t) && |data| <= RoomIn(s, dma, late)
            && c.buffered == s.q.buffered - Counted(s, dma, late)
            && 0 <= t.buffered <= |Pulled(t)| && t.buffered <= |s.ring| == |r2| && HoldsAt(r2, dma, Pending(t))
            && (InSync(r2, dma, Wrap(|s.ring|, CursorIn(s, dma, late) + |data|), t)
                <==> 0 < t.buffered && (dma < |s.ring| || t.buffered < |s.ring|))
  {
    hide Marks, AllPlayable, LoopsAhead, Untouched, Boundary, Base, Part, PullMany, Advance, Ready, PlayFits;
    var size, adv, room := |s.ring|, Counted(s, dma, late), RoomIn(s, dma, late);
    DistanceIsBuffered(s.ring, s.last, s.cursor, s.q);
    PendingAfterAdvance(s.q, adv);
    var c := Advance(s.q, adv);
    if Underflow(size, s.last, s.cursor, dma, late) {
      TransferExtends(r1, r2, dma, dma, c, room);
    } else {
      PaddingKeepsPending(s.ring, r1, s.last, s.cursor, s.q, dma, silence);
      RoomIsComplement(size, s.last, s.cursor, dma);
      TransferExtends(r1, r2, dma, s.cursor, c, room);
    }
  }

  /** What is not counted and the room make up the ring. */
  lemma CountedAndRoom(s: Stream, dma: nat, late: bool)
    requires 0 < |s.ring| && s.last <= |s.ring| && s.cursor <= |s.ring| && dma <= |s.ring|
    requires StreamOk(s.q) && InSync(s.ring, s.last, s.cursor, s.q)
    ensures 0 <= RoomIn(s, dma, late) && Counted(s, dma, late) <= s.q.buffered
    ensures s.q.buffered - Counted(s, dma, late) + RoomIn(s, dma, late) == |s.ring|
  {
    hide StreamOk, Pulled, Pending, HoldsAt;
    DistanceIsBuffered(s.ring, s.last, s.cursor, s.q);
  }

  /** Said of the state before. */
  lemma TellsIs(s: Stream, dma: nat, late: bool)
    requires 0 < |s.ring| && s.last <= |s.ring| && s.cursor <= |s.ring| && dma <= |s.ring|
    requires StreamOk(s.q) && InSync(s.ring, s.last, s.cursor, s.q) && PlayFits(s.q, Counted(s, dma, late))
    ensures Walkable(s.q.hdrs) && StreamOk(Advance(s.q, Counted(s, dma, late))) && 0 <= RoomIn(s, dma, late)
    ensures var (t, data) := PullMany(Advance(s.q, Counted(s, dma, late)), RoomIn(s, dma, late));
            0 < t.buffered && (dma < |s.ring| || t.buffered < |s.ring|) <==> Tells(s, dma, late)
  {
    StreamShape(s.q);
    hide Shape, StreamOk, Pulled, PullMany, Advance, Ready, PlayFits, RunsDry, RoomOf, AdvanceOf, InSync;
    var adv, room := Counted(s, dma, late), RoomIn(s, dma, late);
    CountedAndRoom(s, dma, late);
    AdvanceKeepsStreamOk(s.q, adv);
    AdvanceKeepsCopier(s.q, adv);
    var c := Advance(s.q, adv);
    StreamShape(c);
    OkFrame(c, room);
    FallsShortIff(c, room);
    RunsDrySame(s.q, adv, room);
  }

  lemma AdvanceKeepsCopier(q: Queue, adv: nat)
    requires StreamOk(q)
    ensures Walkable(q.hdrs) && Advance(q, adv).cur == q.cur && |Advance(q, adv).hdrs| == |q.hdrs|
  {
    AdvanceKeepsReady(q, adv);
  }

  /** The copier's count and the distance between the cursors right after the ring has been
      filled from its start: they agree exactly if nothing was buffered before, or a whole
      ring was and nothing is left to copy. */
  lemma RestartCounts(q: Queue, size: nat)
    requires StreamOk(q) && 0 < size && (q.cur < |q.hdrs| || 0 < q.buffered)
    ensures var (t, data) := PullMany(q, size);
            |data| <= size &&
            (MaxAdvance(size, 0, Wrap(size, |data|)) == t.buffered
             <==> q.buffered == 0 || (q.buffered == size && q.cur == |q.hdrs|))
  {
    PullManyFrame(q, size);
    if q.cur == |q.hdrs| {
      PullNothing(q, size);
    }
  }

  lemma NothingPending(ring: seq<Byte>, q: Queue)
    requires StreamOk(q) && q.buffered == 0
    ensures q.buffered <= |Pulled(q)| && HoldsAt(ring, 0, Pending(q))
  {
    hide Marks, AllPlayable, LoopsAhead, Untouched, Boundary, Base, Part;
  }

  lemma OkFrame(q: Queue, n: nat)
    requires StreamOk(q)
    ensures Shape(q)
    ensures |PullMany(q, n).1| <= n && PullMany(q, n).0.buffered == q.buffered + |PullMany(q, n).1|
    ensures 0 < n && q.cur < |q.hdrs| ==> 0 < |PullMany(q, n).1|
    ensures q.cur == |q.hdrs| ==> |PullMany(q, n).1| == 0
    ensures q.cur <= |q.hdrs|
  {
    PullManyFrame(q, n);
    if q.cur == |q.hdrs| {
      PullNothing(q, n);
    }
  }

  /** With nothing buffered before, a restart synchronises the stream. */
  lemma RestartInSync(r0: seq<Byte>, r1: seq<Byte>, q: Queue)
    requires StreamOk(q) && q.buffered == 0 && q.cur < |q.hdrs| && 0 < |r0|
    requires Wrote(r0, r1, 0, PullMany(q, |r0|).1)
    ensures var (t, data) := PullMany(q, |r0|);
            StreamOk(t) && |data| <= |r0| && InSync(r1, 0, Wrap(|r0|, |data|), t)
  {
    hide *;
    NothingPending(r0, q);
    OkFrame(q, |r0|);
    TransferExtends(r0, r1, 0, 0, q, |r0|);
  }

  /** A stream can be restarted without losing its place: nothing was buffered when it stopped,
      or the ring was full with nothing to follow, and happens to hold the bytes due from its
      start on. */
  ghost predicate RestartKeepsPlace(ring: seq<Byte>, q: Queue)
    requires StreamOk(q)
  {
    || q.buffered == 0
    || (q.buffered == |ring| && q.cur == |q.hdrs| && q.buffered <= |Pulled(q)| && HoldsAt(ring, 0, Pending(q)))
  }

  /** Exactly then is the stream synchronised after the restart. */
  lemma RestartInSyncIff(r0: seq<Byte>, r1: seq<Byte>, q: Queue)
    requires StreamOk(q) && 0 < |r0| && (q.cur < |q.hdrs| || 0 < q.buffered)
    requires Wrote(r0, r1, 0, PullMany(q, |r0|).1)
    ensures var (t, data) := PullMany(q, |r0|);
            && StreamOk(t) && |data| <= |r0|
            && (InSync(r1, 0, Wrap(|r0|, |data|), t) <==> RestartKeepsPlace(r0, q))
  {
    hide Marks, AllPlayable, LoopsAhead, Untouched, Boundary, Base, Part, PullMany, Ready, Pulled;
    var (t, data) := PullMany(q, |r0|);
    PullManyStream(q, |r0|);
    RestartCounts(q, |r0|);
    if q.buffered == 0 {
      RestartInSync(r0, r1, q);
    } else if q.buffered == |r0| && q.cur == |q.hdrs| {
      PullNothing(q, |r0|);
      assert r1 == r0;
    } else if InSync(r1, 0, Wrap(|r0|, |data|), t) {
      DistanceIsBuffered(r1, 0, Wrap(|r0|, |data|), t);
    }
  }

  /** Queuing a header changes nothing in the ring's relation to the stream. */
  lemma SyncIgnoresQueuing(ring: seq<Byte>, last: nat, cursor: nat, q: Queue, r: Queue)
    requires StreamOk(q) && StreamOk(r) && Pulled(r) == Pulled(q) && r.buffered == q.buffered
    requires InSync(ring, last, cursor, q)
    ensures InSync(ring, last, cursor, r)
  {
  }

  /** After a header is queued a restart keeps the place exactly if nothing is buffered. */
  lemma AddMakesRestart(q: Queue, data: seq<Byte>, begin: bool, end: bool, loops: nat)
    requires Shape(q) && CanAdd(q, begin)
    ensures var r := Add(q, data, begin, end, loops);
            StreamOk(r) ==> forall ring: seq<Byte> :: RestartKeepsPlace(ring, r) <==> q.buffered == 0
  {
    hide StreamOk, Pulled;
    AddMakesCurrent(q, data, begin, end, loops);
  }

  /** What an interrupt comes to that counts what was played: the stream goes on where it was,
      and a stream in step stays so exactly if the cursors still tell what is buffered. */
  lemma InterruptInSync(s: Stream, s': Stream, dma: nat, late: bool, silence: Byte)
    requires Formed(s) && dma <= |s.ring| && Interrupted(s, s', dma, late, silence)
    requires StreamOk(s.q) && PlayFits(s.q, Counted(s, dma, late))
    ensures StreamOk(s'.q) && Pulled(s.q) <= Pulled(s'.q)
    ensures s.started && Synced(s) && s'.started ==> (Synced(s') <==> Tells(s, dma, late))
    ensures s.started && Synced(s) ==>
              |Pulled(s'.q)| - s'.q.buffered == |Pulled(s.q)| - s.q.buffered + Counted(s, dma, late)
  {
    hide Shape, Ready, PlayFits, Advance, PullMany, Pulled, InSync, Tells, Wrote, Padded, StreamOk, Formed, RoomOf,
         AdvanceOf, Underflow, Wrap;
    StreamShape(s.q);
    FormedBounds(s);
    var adv, room := Counted(s, dma, late), RoomIn(s, dma, late);
    AdvanceKeepsStreamOk(s.q, adv);
    ghost var ring: seq<Byte> :|
      && Padded(s.ring, ring, s.last, s.cursor, dma, late, silence)
      && var c := CountedAs(s, dma, late, ring);
         if c.q.head == |c.q.hdrs| then s' == c.(started := false)
         else 0 <= room && Filled(c, room, s');
    var c := CountedAs(s, dma, late, ring);
    StreamShape(c.q);
    if s.started && Synced(s) {
      DistanceIsBuffered(s.ring, s.last, s.cursor, s.q);
      CountedWithin(s, dma, late);
    }
    if c.q.head < |c.q.hdrs| {
      PullManyStream(c.q, room);
      if s.started && Synced(s) {
        TellsIs(s, dma, late);
        RefillInSync(s, ring, s'.ring, dma, late, silence);
        OkFrame(c.q, room);
      }
    }
  }

  lemma WroteNothing(ring: seq<Byte>, at: nat)
    requires at <= |ring|
    ensures Wrote(ring, ring, at, [])
  {
  }

  lemma PendingHeld(ring: seq<Byte>, at: nat, q: Queue, i: nat)
    requires CursorOk(q) && i < q.buffered <= |Pulled(q)| && q.buffered <= |ring| && at <= |ring|
    requires HoldsAt(ring, at, Pending(q))
    ensures From(ring, at, i) == Pulled(q)[|Pulled(q)| - q.buffered + i]
  {
    hide Pulled;
    assert Pending(q)[i] == Pulled(q)[|Pulled(q)| - q.buffered + i];
  }

  /** Byte `i` beyond the reading once the transfer `r2` is made. */
  lemma LiesAhead(s: Stream, r1: seq<Byte>, r2: seq<Byte>, dma: nat, late: bool, silence: Byte, i: nat)
    requires 0 < |s.ring| && s.last <= |s.ring| && s.cursor <= |s.ring| && dma <= |s.ring|
    requires StreamOk(s.q) && InSync(s.ring, s.last, s.cursor, s.q) && PlayFits(s.q, Counted(s, dma, late))
    requires Padded(s.ring, r1, s.last, s.cursor, dma, late, silence)
    requires Walkable(s.q.hdrs) && StreamOk(Advance(s.q, Counted(s, dma, late))) && 0 <= RoomIn(s, dma, late)
    requires Wrote(r1, r2, CursorIn(s, dma, late),
                   PullMany(Advance(s.q, Counted(s, dma, late)), RoomIn(s, dma, late)).1)
    requires i < |s.ring| && (i < |s.ring| / 8 || Underflow(|s.ring|, s.last, s.cursor, dma, late))
    ensures |r1| == |r2| == |s.ring|
    ensures var t := PullMany(Advance(s.q, Counted(s, dma, late)), RoomIn(s, dma, late)).0;
            && StreamOk(t) && 0 <= t.buffered <= |Pulled(t)|
            && From(r2, dma, i) == if i < t.buffered then Pulled(t)[|Pulled(t)| - t.buffered + i] else silence
  {
    RefillInSync(s, r1, r2, dma, late, silence);
    hide StreamOk, InSync, PlayFits, Padded, Wrote, PullMany, Advance, Pulled, Underflow, RoomOf, HoldsAt, Pending,
         Wrap, MaxAdvance, Moved, AdvanceOf, From, Walkable;
    var c := Advance(s.q, Counted(s, dma, late));
    var (t, data) := PullMany(c, RoomIn(s, dma, late));
    DistanceIsBuffered(s.ring, s.last, s.cursor, s.q);
    StreamShape(c);
    OkFrame(c, RoomIn(s, dma, late));
    if i < t.buffered {
      PendingHeld(r2, dma, t, i);
    } else {
      SilenceAhead(s.ring, r1, r2, s.last, s.cursor, dma, late, silence, data, i);
    }
  }

  /** An interrupt pads the ring and then makes its transfer, of nothing if the stream stops. */
  lemma PadsAndFills(s: Stream, s': Stream, dma: nat, late: bool, silence: Byte) returns (ring: seq<Byte>)
    requires s.last <= |s.ring| && s.cursor <= |s.ring| && Walkable(s.q.hdrs) && s.q.head <= |s.q.hdrs|
    requires Interrupted(s, s', dma, late, silence) && dma <= |s.ring| && 0 < |s.ring| && 0 <= RoomIn(s, dma, late)
    requires StreamOk(Advance(s.q, Counted(s, dma, late)))
    ensures |ring| == |s.ring| && s'.last == dma && Padded(s.ring, ring, s.last, s.cursor, dma, late, silence)
    ensures Shape(Advance(s.q, Counted(s, dma, late))) && CursorIn(s, dma, late) <= |ring|
    ensures var (t, data) := PullMany(Advance(s.q, Counted(s, dma, late)), RoomIn(s, dma, late));
            s'.q == t && Wrote(ring, s'.ring, CursorIn(s, dma, late), data)
  {
    hide Shape, Ready, Advance, PullMany, Wrote, Padded, StreamOk, RoomIn, Underflow, Counted, Walkable, CursorOk;
    ring :|
      && Padded(s.ring, ring, s.last, s.cursor, dma, late, silence)
      && var c := CountedAs(s, dma, late, ring);
         if c.q.head == |c.q.hdrs| then s' == c.(started := false)
         else 0 <= RoomIn(s, dma, late) && Filled(c, RoomIn(s, dma, late), s');
    var c := CountedAs(s, dma, late, ring);
    StreamShape(c.q);
    PaddedIs(s.ring, ring, s.last, s.cursor, dma, late, silence);
    if c.q.head == |c.q.hdrs| {
      PullNothing(c.q, RoomIn(s, dma, late));
      WroteNothing(ring, c.cursor);
    }
  }

  lemma InterruptFrame(s: Stream, s': Stream, dma: nat, late: bool, silence: Byte)
    requires Formed(s) && dma <= |s.ring| && Interrupted(s, s', dma, late, silence)
    requires StreamOk(s.q) && PlayFits(s.q, Counted(s, dma, late)) && s.started && Synced(s)
    ensures |s'.ring| == |s.ring| && s'.last == dma && StreamOk(s'.q) && 0 <= s'.q.buffered <= |Pulled(s'.q)|
  {
    FormedBounds(s);
    StreamShape(s.q);
    hide Shape, Ready, PlayFits, Advance, PullMany, Pulled, InSync, Padded, StreamOk, Formed, RoomIn, Underflow,
         Counted, From, CursorOk, Interrupted;
    CountedAndRoom(s, dma, late);
    AdvanceKeepsStreamOk(s.q, Counted(s, dma, late));
    var ring := PadsAndFills(s, s', dma, late, silence);
    InterruptInSync(s, s', dma, late, silence);
    StreamShape(s'.q);
  }

  /** So what the engine finds after an interrupt, for an eighth of the ring at least, is what is
      buffered and then silence, and after an underflow nothing else all round. */
  lemma StreamThenSilence(s: Stream, s': Stream, dma: nat, late: bool, silence: Byte, i: nat)
    requires Formed(s) && dma <= |s.ring| && Interrupted(s, s', dma, late, silence)
    requires StreamOk(s.q) && PlayFits(s.q, Counted(s, dma, late)) && s.started && Synced(s)
    requires i < |s.ring| && (i < |s.ring| / 8 || Underflow(|s.ring|, s.last, s.cursor, dma, late))
    ensures |s'.ring| == |s.ring| && s'.last == dma && StreamOk(s'.q) && 0 <= s'.q.buffered <= |Pulled(s'.q)|
    ensures From(s'.ring, dma, i)
            == if i < s'.q.buffered then Pulled(s'.q)[|Pulled(s'.q)| - s'.q.buffered + i] else silence
  {
    FormedBounds(s);
    StreamShape(s.q);
    hide Shape, Ready, PlayFits, Advance, PullMany, Pulled, InSync, Wrote, Padded, StreamOk, Formed, RoomIn, Underflow,
         Counted, From, CursorOk, Interrupted;
    CountedAndRoom(s, dma, late);
    AdvanceKeepsStreamOk(s.q, Counted(s, dma, late));
    var ring := PadsAndFills(s, s', dma, late, silence);
    LiesAhead(s, ring, s'.ring, dma, late, silence, i);
  }

  /** A restart writes no silence: beyond what it fills lies what was there before. */
  lemma StreamThenRemains(s: Stream, s': Stream, i: nat)
    requires Formed(s) && StreamOk(s.q) && Restarted(s, s') && s.q.buffered == 0 && i < |s.ring|
    ensures |s'.ring| == |s.ring| && s'.last == 0 && StreamOk(s'.q) && 0 <= s'.q.buffered <= |Pulled(s'.q)|
    ensures s'.ring[i] == if i < s'.q.buffered then Pulled(s'.q)[|Pulled(s'.q)| - s'.q.buffered + i] else s.ring[i]
  {
    FormedBounds(s);
    hide Formed, StreamOk, Shape, Ready, Pulled, PullMany, Wrote, CursorOk;
    PullManyStream(s.q, |s.ring|);
    OkFrame(s.q, |s.ring|);
    StreamShape(s'.q);
    WroteFront(s.ring, s'.ring, PullMany(s.q, |s.ring|).1, i);
  }

  lemma WroteFront(before: seq<Byte>, after: seq<Byte>, data: seq<Byte>, i: nat)
    requires Wrote(before, after, 0, data) && i < |before|
    ensures |after| == |before| && after[i] == if i < |data| then data[i] else before[i]
  {
  }

  lemma StreamShape(q: Queue)
    requires StreamOk(q)
    ensures Shape(q) && Ready(q) && CursorOk(q) && q.head <= q.cur <= |q.hdrs| && 0 <= q.buffered <= |Pulled(q)|
  {
  }

  lemma FormedBounds(s: Stream)
    requires Formed(s)
    ensures 0 < |s.ring| && s.last <= |s.ring| && s.cursor <= |s.ring| && Shape(s.q) && Ready(s.q)
  {
  }

  /** No more is counted than was between the cursors. */
  lemma CountedWithin(s: Stream, dma: nat, late: bool)
    requires s.last <= |s.ring|
    ensures Counted(s, dma, late) <= MaxAdvance(|s.ring|, s.last, s.cursor)
  {
  }

  /** With simple headers what is played can always be counted, and something is buffered while
      the stream goes on. */
  lemma PlainInterrupt(s: Stream, s': Stream, dma: nat, late: bool, silence: Byte)
    requires Formed(s) && dma <= |s.ring| && Interrupted(s, s', dma, late, silence) && QueueOk(s.q)
    ensures PlayFits(s.q, Counted(s, dma, late)) && QueueOk(s'.q) && StreamOk(s.q)
    ensures s'.started ==> Counted(s, dma, late) < s.q.buffered || s.q.cur < |s.q.hdrs|
  {
    hide Shape, Ready, PlayFits, Advance, PullMany, Pulled, Wrote, Padded, StreamOk, QueueOk, Formed, RoomOf,
         AdvanceOf, Underflow, Wrap;
    SimpleStreamOk(s.q);
    StreamShape(s.q);
    FormedBounds(s);
    var adv, room := Counted(s, dma, late), RoomIn(s, dma, late);
    AdvanceKeepsQueueOk(s.q, adv);
    ghost var ring: seq<Byte> :|
      && Padded(s.ring, ring, s.last, s.cursor, dma, late, silence)
      && var c := CountedAs(s, dma, late, ring);
         if c.q.head == |c.q.hdrs| then s' == c.(started := false)
         else 0 <= room && Filled(c, room, s');
    var c := CountedAs(s, dma, late, ring);
    SimpleStreamOk(c.q);
    StreamShape(c.q);
    NotDoneNotEmpty(c.q);
    if c.q.head < |c.q.hdrs| {
      PullManyOk(c.q, room);
    }
  }

  /** What a restart comes to. */
  lemma RestartInStep(s: Stream, s': Stream)
    requires Formed(s) && StreamOk(s.q) && Restarted(s, s') && (s.q.cur < |s.q.hdrs| || 0 < s.q.buffered)
    ensures StreamOk(s'.q) && (Synced(s') <==> RestartKeepsPlace(s.ring, s.q))
    ensures Pulled(s.q) <= Pulled(s'.q) && |Pulled(s'.q)| - s'.q.buffered == |Pulled(s.q)| - s.q.buffered
  {
    hide Shape, Ready, PullMany, Pulled, InSync, Wrote, StreamOk, RestartKeepsPlace;
    RestartInSyncIff(s.ring, s'.ring, s.q);
    PullManyStream(s.q, |s.ring|);
    OkFrame(s.q, |s.ring|);
  }

  lemma SimpleCanAdd(q: Queue, begin: bool)
    requires q.build == -1
    ensures CanAdd(q, begin) && !TooLate(q, begin)
  {
  }
}
