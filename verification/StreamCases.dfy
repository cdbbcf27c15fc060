/** Runs of a stream that lose their place when the client pauses and resumes it. */
module StreamCases {
  import opened WaveModel
  import opened WaveStream
  import opened WaveWalk
  import opened WaveCost
  import opened WavePlay
  import opened WavePull
  import opened RingModel
  import opened StreamModel
  import opened StreamRuns
  import WaveCases

  lemma {:induction false} ReachesThen(from: Session, ops: seq<Op>, w: Session, op: Op, w': Session, silence: Byte)
    requires Inv(from) && Reaches(from, ops, w, silence)
    requires Inv(w) && Legal(w.s, op) && Step(w, op, w', silence) && Formed(w'.s)
    ensures Reaches(from, ops + [op], w', silence)
    decreases |ops|
  {
    hide Step, Legal, Inv;
    InvForms(from);
    InvForms(w);
    if ops == [] {
      assert [op][1..] == [];
      assert Reaches(w', [], w', silence);
    } else {
      var next: Session :|
        Step(from, ops[0], next, silence) && Formed(next.s) && Reaches(next, ops[1..], w, silence);
      StepKeepsInv(from, ops[0], next, silence);
      InvForms(next);
      assert (ops + [op])[1..] == ops[1..] + [op];
      ReachesThen(next, ops[1..], w, op, w', silence);
    }
  }

  /** One more step of a run. */
  lemma Then(ring: seq<Byte>, ops: seq<Op>, w: Session, op: Op, w': Session)
    requires Run(ring, ops, w, 0)
    ensures Inv(w)
    ensures Legal(w.s, op) && Step(w, op, w', 0) ==> Run(ring, ops + [op], w', 0) && Inv(w')
  {
    hide Step, Legal, Inv;
    BeginsFormed(ring);
    RunKeepsInv(NewSession(ring), ops, w, 0);
    InvForms(w);
    if Legal(w.s, op) && Step(w, op, w', 0) {
      StepKeepsInv(w, op, w', 0);
      InvForms(w');
      ReachesThen(NewSession(ring), ops, w, op, w', 0);
    }
  }

  lemma InvForms(w: Session)
    requires Inv(w)
    ensures Formed(w.s)
  {
  }

  lemma Beginning(ring: seq<Byte>)
    requires ring != []
    ensures Run(ring, [], NewSession(ring), 0)
  {
    hide Inv;
    BeginsFormed(ring);
  }

  // ---------------------------------------------------------------------------
  // One plain header of some bytes
  // ---------------------------------------------------------------------------

  function Plain(data: seq<Byte>, recorded: nat): Hdr { Hdr(data, false, false, 0, 0, recorded, false, -1) }

  /** `left` bytes to copy, `buffered` bytes to play, `recorded` played. */
  function One(data: seq<Byte>, left: nat, buffered: nat, recorded: nat): Queue {
    Queue([Plain(data, recorded)], 0, if left == 0 then 1 else 0, left, -1, 0, 0, -1, buffered, recorded, 0)
  }

  lemma OneQueued(data: seq<Byte>)
    ensures Add(EmptyQueue(0), data, false, false, 0) == One(data, |data|, 0, 0) || data == []
  {
  }

  lemma OnePulled(data: seq<Byte>, left: nat, buffered: nat, recorded: nat, room: nat)
    requires Shape(One(data, left, buffered, recorded)) && left <= |data|
    ensures var n := Min(room, left);
            PullMany(One(data, left, buffered, recorded), room) ==
            (One(data, left - n, buffered + n, recorded), data[|data| - left..|data| - left + n])
  {
    var q, n := One(data, left, buffered, recorded), Min(room, left);
    if left == 0 || room == 0 {
      assert data[|data| - left..|data| - left + n] == [];
      PullNothing(q, room);
    } else {
      PullStep(q, room);
      assert Next(q, room) == (One(data, left - n, buffered + n, recorded), data[|data| - left..|data| - left + n]);
      PullNothing(Next(q, room).0, room - n);
      assert Next(q, room).1 + [] == Next(q, room).1;
    }
  }

  lemma OnePlayed(data: seq<Byte>, left: nat, buffered: nat, recorded: nat)
    requires 0 < buffered && recorded + 1 < |data| < DWORD_RANGE
    ensures var q := One(data, left, buffered, recorded);
            Walkable(q.hdrs) && Advance(q, 1) == One(data, left, buffered - 1, recorded + 1)
  {
    var q := One(data, left, buffered, recorded);
    assert q.hdrs[0 := Plain(data, recorded + 1)] == One(data, left, buffered - 1, recorded + 1).hdrs;
    assert Turn(q, 0, 1) == (One(data, left, buffered - 1, recorded + 1), 0, 0);
    WaveCases.OneTurn(q, 0, 1);
  }

  lemma OneBehind(data: seq<Byte>, left: nat, buffered: nat, recorded: nat)
    requires recorded + 1 < |data|
    ensures Behind(One(data, left, buffered, recorded), 1)
  {
    var q := One(data, left, buffered, recorded);
    assert Sum(q.hdrs, 0, 1) == Cost(q.hdrs, 0) + Sum(q.hdrs, 1, 1);
  }

  lemma OneMeans(data: seq<Byte>, left: nat, buffered: nat, recorded: nat, k: nat)
    ensures Meaning(One(data, left, buffered, recorded).hdrs, k) == data
  {
    var h := One(data, left, buffered, recorded).hdrs;
    assert Expand(h, 1, k) == [];
    assert data + [] == data;
  }

  // ---------------------------------------------------------------------------
  // A ring of three
  // ---------------------------------------------------------------------------

  function Threes(ring: seq<Byte>, last: nat, cursor: nat, q: Queue, running: bool): Stream {
    Stream(ring, last, cursor, q, running, !running)
  }

  /** The ring filled from its front, when there is something to fill it with. */
  lemma RestartOne(s: Stream, data: seq<Byte>, left: nat, buffered: nat, recorded: nat, ring: seq<Byte>)
    requires Formed(s) && |s.ring| == 3 && s.q == One(data, left, buffered, recorded) && !s.paused && left <= |data|
    requires ring == if left == 0 then s.ring else if 3 <= left then data[|data| - left..|data| - left + 3] else ring
    requires left == 0 || 3 <= left
    ensures var n := if left == 0 then 0 else 3;
            Restarted(s, Threes(ring, 0, 0, One(data, left - n, buffered + n, recorded), true))
  {
    FormedBounds(s);
    OnePulled(data, left, buffered, recorded, 3);
    hide Shape, PullMany, Ready;
  }

  /** One byte of the ring passed over, and the next one put in its place, if there is one. */
  lemma InterruptOne(s: Stream, data: seq<Byte>, left: nat, buffered: nat, recorded: nat, ring: seq<Byte>)
    requires Formed(s) && s == Threes(s.ring, 0, 0, One(data, left, buffered, recorded), true) && |s.ring| == 3
    requires 0 < buffered && recorded + 1 < |data| < DWORD_RANGE && left <= |data|
    requires ring == if left == 0 then s.ring else s.ring[0 := data[|data| - left]]
    ensures Counted(s, 1, false) == 1 && Behind(s.q, 1) && !Underflow(3, 0, 0, 1, false)
    ensures Passed(s, 1) == [s.ring[0]]
    ensures var n := Min(1, left);
            Interrupted(s, Threes(ring, 1, n, One(data, left - n, buffered - 1 + n, recorded + 1), true), 1, false, 0)
  {
    FormedBounds(s);
    hide Shape, PullMany, Ready, Advance, Behind, Formed;
    OneBehind(data, left, buffered, recorded);
    OnePlayed(data, left, buffered, recorded);
    AdvanceKeepsShapeIff(s.q, 1);
    assert Padded(s.ring, s.ring, 0, 0, 1, false, 0);
    assert |Passed(s, 1)| == 1 && Passed(s, 1)[0] == s.ring[Wrap(3, 0)];
    RefillOne(CountedAs(s, 1, false, s.ring), data, left, buffered - 1, recorded + 1, ring);
    hide Filled;
  }

  lemma RefillOne(c: Stream, data: seq<Byte>, left: nat, buffered: nat, recorded: nat, ring: seq<Byte>)
    requires c == Threes(c.ring, 1, 0, One(data, left, buffered, recorded), true) && |c.ring| == 3 && Shape(c.q)
    requires left <= |data| && ring == if left == 0 then c.ring else c.ring[0 := data[|data| - left]]
    ensures var n := Min(1, left);
            Filled(c, 1, Threes(ring, 1, n, One(data, left - n, buffered + n, recorded), true))
  {
    OnePulled(data, left, buffered, recorded, 1);
    hide Shape, PullMany, One;
  }

  const NINE: seq<Byte> := [9, 1, 2, 3]
  const SIX: seq<Byte> := [1, 2, 3, 4, 5, 6]
  const SILENT: seq<Byte> := [0, 0, 0]

  /** The first header sets the stream going. */
  lemma FirstQueued(data: seq<Byte>) returns (ops: seq<Op>, w: Session)
    requires 3 < |data| < DWORD_RANGE
    ensures Run(SILENT, ops, w, 0) && Inv(w)
    ensures w == Session(Threes(data[..3], 0, 0, One(data, |data| - 3, 3, 0), true), [], true, true)
  {
    hide Run, Inv, Restarted;
    Beginning(SILENT);
    var w0, op := NewSession(SILENT), QueueOp(data, false, false, 0, 0, false);
    Then(SILENT, [], w0, PauseOp, w0);
    InvForms(w0);
    OneQueued(data);
    var a := Offer(w0.s, op);
    w := Session(Threes(data[..3], 0, 0, One(data, |data| - 3, 3, 0), true), [], true, true);
    OneFormed(a, data);
    RestartOne(a, data, |data|, 0, 0, data[..3]);
    ops := [] + [op];
    Then(SILENT, [], w0, op, w);
  }

  lemma OneFormed(s: Stream, data: seq<Byte>)
    requires 0 < |data| < DWORD_RANGE && s == Stream(SILENT, 0, 0, One(data, |data|, 0, 0), false, false)
    ensures Formed(s)
  {
    var q := EmptyQueue(0);
    assert Shape(q) && Ready(q);
    OneQueued(data);
    AddKeepsAll(q, data, false, false, 0);
  }

  /** A reading of the cursor at 1. */
  lemma ThenInterrupt(ops: seq<Op>, w: Session, data: seq<Byte>, left: nat, buffered: nat, recorded: nat)
    returns (w': Session)
    requires Run(SILENT, ops, w, 0) && |w.s.ring| == 3
    requires w.s == Threes(w.s.ring, 0, 0, One(data, left, buffered, recorded), true)
    requires 0 < buffered && recorded + 1 < |data| < DWORD_RANGE && left <= |data|
    ensures Run(SILENT, ops + [InterruptOp(1, false)], w', 0) && Inv(w')
    ensures w'.calm == w.calm && (!w.smooth ==> !w'.smooth) && w'.heard == w.heard + [w.s.ring[0]]
    ensures var n := Min(1, left);
            w'.s == Threes(if left == 0 then w.s.ring else w.s.ring[0 := data[|data| - left]], 1, n,
                           One(data, left - n, buffered - 1 + n, recorded + 1), true)
  {
    hide Run, Inv, Interrupted, Behind, Passed, SmoothReading;
    var op, n := InterruptOp(1, false), Min(1, left);
    var ring := if left == 0 then w.s.ring else w.s.ring[0 := data[|data| - left]];
    var s' := Threes(ring, 1, n, One(data, left - n, buffered - 1 + n, recorded + 1), true);
    Then(SILENT, ops, w, PauseOp, w);
    InvForms(w);
    InterruptOne(w.s, data, left, buffered, recorded, ring);
    w' := Session(s', w.heard + [w.s.ring[0]], w.smooth && SmoothReading(w.s, s', 1, false), w.calm);
    Then(SILENT, ops, w, op, w');
  }

  /** Pause, and resume. */
  lemma ThenPauseAndResume(ops: seq<Op>, w: Session, data: seq<Byte>, left: nat, buffered: nat, recorded: nat,
                           ring: seq<Byte>)
    returns (w': Session)
    requires Run(SILENT, ops, w, 0) && |w.s.ring| == 3 && left <= |data| && 0 < buffered
    requires w.s.started && !w.s.paused && w.s.q == One(data, left, buffered, recorded)
    requires left == 0 || 3 <= left
    requires ring == if left == 0 then w.s.ring else data[|data| - left..|data| - left + 3]
    ensures Run(SILENT, ops + [PauseOp] + [ResumeOp], w', 0) && Inv(w') && w'.heard == w.heard
    ensures var n := if left == 0 then 0 else 3;
            w'.s == Threes(ring, 0, 0, One(data, left - n, buffered + n, recorded), true)
    ensures w'.smooth == (w.smooth && StreamOk(w.s.q) && RestartKeepsPlace(w.s.ring, w.s.q))
  {
    hide Run, Inv, Restarted, RestartKeepsPlace, StreamOk;
    var n := if left == 0 then 0 else 3;
    var p := w.(s := w.s.(paused := true, started := false));
    Then(SILENT, ops, w, PauseOp, p);
    InvForms(p);
    var s := p.s.(paused := false);
    FormedBounds(p.s);
    FormedIs(s);
    RestartOne(s, data, left, buffered, recorded, ring);
    w' := Session(Threes(ring, 0, 0, One(data, left - n, buffered + n, recorded), true), w.heard,
                  w.smooth && StreamOk(w.s.q) && RestartKeepsPlace(w.s.ring, w.s.q), false);
    Then(SILENT, ops + [PauseOp], p, ResumeOp, w');
  }

  /** Six bytes through a ring of three: the stream is paused with the first three buffered and
      resumed, and the engine goes on with the fourth. */
  lemma PausedStreamLosesBytes() returns (ops: seq<Op>, w: Session)
    ensures Run(SILENT, ops, w, 0) && w.heard == [4] && forall k: nat :: Meaning(w.s.q.hdrs, k) == [1, 2, 3, 4, 5, 6]
  {
    hide Run, Inv, RestartKeepsPlace, StreamOk;
    ops, w := FirstQueued(SIX);
    w := ThenPauseAndResume(ops, w, SIX, 3, 3, 0, [4, 5, 6]);
    ops := ops + [PauseOp] + [ResumeOp];
    w := ThenInterrupt(ops, w, SIX, 0, 6, 0);
    ops := ops + [InterruptOp(1, false)];
    forall k: nat {
      OneMeans(SIX, 0, 5, 1, k);
    }
  }

  lemma CalmInStep(w: Session)
    requires Inv(w) && w.calm
    ensures StreamOk(w.s.q) && Synced(w.s)
  {
  }

  /** The bytes due do not lie at the front of the ring. */
  lemma NotAtFront(q: Queue)
    requires StreamOk(q) && q == One(NINE, 0, 3, 1)
    ensures !InSync([3, 1, 2], 0, 0, q) && !RestartKeepsPlace([3, 1, 2], q)
  {
    PulledOf(q, 1);
    OneMeans(NINE, 0, 3, 1, 1);
    hide StreamOk, Pulled, Meaning;
    var ring: seq<Byte> := [3, 1, 2];
    assert Pending(q) == NINE[1..];
    assert ring[Wrap(3, 0 + 0)] != Pending(q)[0];
  }

  /** Four bytes: with the first one played and the ring full, the stream is paused and resumed
      with nothing to follow.  It was in step before and is not after; the counts agree, and yet
      the last byte is heard next. */
  lemma PausedStreamTurnsRing() returns (ops: seq<Op>, w: Session, ops': seq<Op>, w': Session)
    ensures Run(SILENT, ops, w, 0) && w.s.started && StreamOk(w.s.q) && Synced(w.s)
    ensures ops' == ops + [PauseOp] + [ResumeOp] && Run(SILENT, ops', w', 0)
    ensures w'.s.started && w'.s.q == w.s.q
    ensures !Synced(w'.s) && w'.s == Stream([3, 1, 2], 0, 0, w.s.q, true, false)
    ensures MaxAdvance(3, 0, 0) == w.s.q.buffered
  {
    hide Run, Inv, RestartKeepsPlace, StreamOk, InSync;
    ops, w := FirstQueued(NINE);
    w := ThenInterrupt(ops, w, NINE, 1, 3, 0);
    ops := ops + [InterruptOp(1, false)];
    CalmInStep(w);
    w' := ThenPauseAndResume(ops, w, NINE, 0, 3, 1, [3, 1, 2]);
    ops' := ops + [PauseOp] + [ResumeOp];
    NotAtFront(w.s.q);
  }

  /** What is heard then. */
  lemma TurnedRingIsHeard() returns (ops: seq<Op>, w: Session)
    ensures Run(SILENT, ops, w, 0) && w.heard == [9, 3] && forall k: nat :: Meaning(w.s.q.hdrs, k) == [9, 1, 2, 3]
  {
    hide Run, Inv, RestartKeepsPlace, StreamOk;
    ops, w := FirstQueued(NINE);
    w := ThenInterrupt(ops, w, NINE, 1, 3, 0);
    ops := ops + [InterruptOp(1, false)];
    w := ThenPauseAndResume(ops, w, NINE, 0, 3, 1, [3, 1, 2]);
    ops := ops + [PauseOp] + [ResumeOp];
    w := ThenInterrupt(ops, w, NINE, 0, 3, 1);
    ops := ops + [InterruptOp(1, false)];
    forall k: nat {
      OneMeans(NINE, 0, 2, 2, k);
    }
  }
}
