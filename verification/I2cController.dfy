/** A DesignWare I2C controller as its driver sees it: two 256-deep FIFOs that the bus
    drains and fills at any moment, interrupt conditions, and logs of all that passed.  What
    the bus does before each access to a register is a plan, and any plan is allowed. */
module I2cController {

  const FIFO_SIZE: nat := 256

  const CMD_READ: bv16 := 0x100
  const CMD_STOP: bv16 := 0x200
  const CMD_RESTART: bv16 := 0x400

  type Byte = bv8

  predicate IsRead(w: bv16) { w & CMD_READ != 0 }

  predicate IsStop(w: bv16) { w & CMD_STOP != 0 }

  predicate IsRestart(w: bv16) { w & CMD_RESTART != 0 }

  /** What is said of a list of words after one more, of which `done` are finished. */
  lemma OneMore(ws: seq<bv16>, w: bv16, done: nat)
    requires done <= |ws|
    ensures (ws + [w])[..done] == ws[..done] && (ws + [w])[done..] == ws[done..] + [w]
    ensures AllReads(ws + [w]) ==> AllReads(ws)
  {
    hide IsRead;
    if AllReads(ws + [w]) {
      forall i | 0 <= i < |ws|
        ensures IsRead(ws[i])
      {
        assert IsRead((ws + [w])[i]);
      }
    }
  }

  /** The same when one more of them is finished. */
  lemma OneDone(ws: seq<bv16>, done: nat)
    requires done < |ws|
    ensures ws[done..][0] == ws[done] && ws[done + 1..] == ws[done..][1..]
    ensures StopIn(ws[..done + 1]) <==> StopIn(ws[..done]) || IsStop(ws[done])
  {
    hide IsStop;
    if StopIn(ws[..done]) {
      var i :| 0 <= i < done && IsStop(ws[..done][i]);
      assert IsStop(ws[..done + 1][i]);
    } else if IsStop(ws[done]) {
      assert IsStop(ws[..done + 1][done]);
    }
    if StopIn(ws[..done + 1]) {
      var i :| 0 <= i < done + 1 && IsStop(ws[..done + 1][i]);
      assert i < done ==> IsStop(ws[..done][i]);
    }
  }

  lemma ReadsAt(ws: seq<bv16>, i: nat)
    requires i < |ws|
    ensures AllReads(ws) ==> IsRead(ws[i])
  {
  }

  /** The interrupt conditions the driver tells apart. */
  datatype Conditions = Conditions(txAbort: bool, txEmpty: bool, rxUnder: bool, stopDet: bool, rxFull: bool)

  function Masked(a: Conditions, m: Conditions): Conditions {
    Conditions(a.txAbort && m.txAbort, a.txEmpty && m.txEmpty, a.rxUnder && m.rxUnder,
               a.stopDet && m.stopDet, a.rxFull && m.rxFull)
  }

  ghost predicate AllReads(ws: seq<bv16>) {
    forall i :: 0 <= i < |ws| ==> IsRead(ws[i])
  }

  ghost predicate NoReads(ws: seq<bv16>) {
    forall i :: 0 <= i < |ws| ==> !IsRead(ws[i])
  }

  /** The answers to all words written, less those the driver has read, fit the FIFO. */
  ghost predicate Fits(ws: seq<bv16>, taken: nat) {
    NoReads(ws) || (AllReads(ws) && |ws| - taken <= FIFO_SIZE)
  }

  ghost predicate StopIn(ws: seq<bv16>) {
    exists i :: 0 <= i < |ws| && IsStop(ws[i])
  }

  /** The controller at one moment. */
  datatype View = View(time: nat, tx: seq<bv16>, shifting: seq<bv16>, rx: seq<Byte>, rxThreshold: nat,
                       stopDet: bool, stopTold: bool, aborted: bool, sound: bool,
                       issued: seq<bv16>, done: nat, sent: seq<Byte>, taken: nat)

  /** What the bus has still to do for the words it was given: to take each and to finish it. */
  function Work(v: View): nat { 2 * |v.tx| + |v.shifting| }

  /** What the bus may do by itself: it delivers bytes and finishes words.  Once all words
      are finished it does nothing. */
  ghost predicate MovedOn(v: View, w: View) {
    && w.time == v.time && w.issued == v.issued && w.taken == v.taken && w.rxThreshold == v.rxThreshold
    && v.done <= w.done && v.sent <= w.sent && |w.tx| <= |v.tx| && Work(w) <= Work(v)
    && w.stopTold == v.stopTold
    && (v.stopDet ==> w.stopDet) && (v.aborted ==> w.aborted)
    && (v.sound && Fits(v.issued, v.taken) ==> w.sound)
    && (v.done == |v.issued| && !v.aborted ==>
          !w.aborted && w.done == v.done && w.sent == v.sent && w.rx == v.rx && w.stopDet == v.stopDet &&
            w.sound == v.sound)
  }

  /** What the bus does if the driver lets it: it takes the next word or finishes the one it
      has, delivering `byte` if that was a read; or it gives up, with or without a stop. */
  datatype Move = GoOn(byte: Byte) | GiveUp(stop: bool)

  type Plan = nat -> seq<Move>

  /** The bus goes on, by one step at least, and does not give up. */
  ghost predicate GoesOn(moves: seq<Move>) {
    moves != [] && forall k :: 0 <= k < |moves| ==> moves[k].GoOn?
  }

  /** So it does before every access. */
  ghost predicate Willing(bus: Plan) {
    forall k :: GoesOn(bus(k))
  }

  /** By one step at least it has less to do, if there is anything. */
  ghost predicate Served(v: View, w: View) {
    w.aborted == v.aborted && (v.aborted || Work(v) == 0 || Work(w) < Work(v))
  }

  lemma MovedFurther(a: View, b: View, c: View)
    requires MovedOn(a, b) && MovedOn(b, c)
    ensures MovedOn(a, c) && (Served(b, c) && a.aborted == b.aborted ==> Served(a, c))
  {
  }

  lemma NotMoved(v: View)
    ensures MovedOn(v, v)
  {
  }

  /** One access to a register, after the bus has moved on as planned. */
  ghost predicate Accessed(bus: Plan, v: View, w: View) {
    && w.time == v.time + 1 && MovedOn(v, w.(time := v.time))
    && (bus(v.time) == [] ==> w == v.(time := w.time))
    && (GoesOn(bus(v.time)) ==> Served(v, w))
    && (bus(v.time) == [GiveUp(false)] && v.shifting + v.tx != [] ==> w.aborted && w.done == v.done)
  }

  /** The bus rests before each of the first `n` accesses. */
  ghost predicate QuietUpTo(bus: Plan, n: nat) {
    forall k :: 0 <= k < n ==> bus(k) == []
  }

  lemma AccessKeepsTold(bus: Plan, v: View, w: View)
    requires Accessed(bus, v, w)
    ensures w.stopTold == v.stopTold
  {
  }

  class Controller {
    const bus: Plan
    var accesses: nat             // to registers, so far
    var tx: seq<bv16>             // the transmit FIFO
    var shifting: seq<bv16>       // the word on the bus, if there is one
    var rx: seq<Byte>             // the receive FIFO
    var rxThreshold: nat          // IC_RX_TL
    var stopDet: bool
    var aborted: bool             // the bus gave up; nothing moves until the reset
    var rxOver: bool              // a byte came with the receive FIFO full
    var rxUnder: bool             // the receive FIFO was read empty
    var txOver: bool              // a word was written with the transmit FIFO full
    ghost var issued: seq<bv16>   // all words written since the reset, but those there was no room for
    ghost var stopTold: bool      // a stop condition was acknowledged since the reset
    ghost var done: nat           // how many of them the bus finished
    ghost var sent: seq<Byte>     // all bytes the bus delivered
    ghost var taken: nat          // how many of them the driver read

    constructor (bus: Plan)
      ensures this.bus == bus && accesses == 0
    {
      this.bus, accesses := bus, 0;
    }

    ghost predicate Valid()
      reads this
    {
      && |tx| <= FIFO_SIZE && |rx| <= FIFO_SIZE && |shifting| <= 1
      && done <= |issued|
      && (!aborted ==> issued[done..] == shifting + tx)
      && (aborted ==> shifting == tx == [])
      && (!rxOver && !rxUnder ==> taken <= |sent| && rx == sent[taken..])
      && (AllReads(issued) ==> |sent| == done)
      && (!aborted ==> (StopIn(issued[..done]) <==> stopDet || stopTold))
    }

    /** Nothing has gone wrong with the FIFOs. */
    predicate Sound()
      reads this
    {
      !rxOver && !rxUnder && !txOver
    }

    ghost function Now(): View
      reads this
    {
      View(accesses, tx, shifting, rx, rxThreshold, stopDet, stopTold, aborted, Sound(), issued, done, sent, taken)
    }

    /** Once all words are finished the bus holds nothing back. */
    lemma Idle()
      requires Valid() && done == |issued| && !aborted
      ensures tx == [] && shifting == []
      ensures Sound() && AllReads(issued) && taken == |issued| ==> rx == []
    {
      assert issued[done..] == [];
    }

    /** Disabling and enabling the controller empties the FIFOs. */
    method Restart()
      modifies this
      ensures Valid() && Sound() && !aborted && !stopDet && !stopTold && accesses == old(accesses)
      ensures issued == [] && sent == [] && done == 0 && taken == 0 && tx == [] && rx == []
    {
      tx, shifting, rx := [], [], [];
      rxThreshold, stopDet, aborted, rxOver, rxUnder, txOver := 0, false, false, false, false, false;
      issued, done, sent, taken, stopTold := [], 0, [], 0, false;
    }

    /** One thing the bus does: take the next word, finish the one it has, or give up. */
    method Step(move: Move)
      requires Valid()
      modifies this
      ensures Valid() && MovedOn(old(Now()), Now())
      ensures move.GoOn? ==> Served(old(Now()), Now())
      ensures move == GiveUp(false) && old(shifting + tx) != [] ==> aborted && done == old(done)
    {
      hide IsRead, IsStop, StopIn;
      if aborted {
        return;
      }
      assert |shifting + tx| == |issued[done..]|;
      hide MovedOn, Served, Valid;
      if shifting != [] || tx != [] {
        if move.GiveUp? {
          Abort(move.stop);
        } else if shifting == [] {
          Take();
        } else {
          Finish(move.byte);
        }
      }
    }

    /** The next word goes on the bus. */
    method Take()
      requires Valid() && !aborted && shifting == [] && tx != []
      modifies this`shifting, this`tx
      ensures Valid() && MovedOn(old(Now()), Now()) && Served(old(Now()), Now())
    {
      assert issued[done..] == [tx[0]] + tx[1..];
      shifting, tx := [tx[0]], tx[1..];
    }

    method Abort(stop: bool)
      requires Valid() && !aborted && done < |issued|
      modifies this`tx, this`shifting, this`aborted, this`stopDet
      ensures Valid() && MovedOn(old(Now()), Now()) && aborted && done == old(done)
    {
      tx, shifting, aborted := [], [], true;
      stopDet := stopDet || stop;
    }

    /** The word on the bus is finished; a read delivers its byte. */
    method Finish(byte: Byte)
      requires Valid() && !aborted && shifting != []
      modifies this`shifting, this`rx, this`rxOver, this`stopDet, this`done, this`sent
      ensures Valid() && MovedOn(old(Now()), Now()) && Served(old(Now()), Now())
    {
      assert |issued[done..]| == |shifting + tx|;
      hide Valid, Fits;
      FinishWord(byte);
    }

    method FinishWord(byte: Byte)
      requires Valid() && !aborted && shifting != []
      modifies this`shifting, this`rx, this`rxOver, this`stopDet, this`done, this`sent
      ensures Valid() && shifting == [] && done == old(done) + 1 && old(sent) <= sent
      ensures (old(Sound()) && Fits(issued, taken) ==> Sound()) && (old(stopDet) ==> stopDet)
    {
      hide IsRead, IsStop, StopIn, AllReads, Fits;
      var w := shifting[0];
      assert issued[done..][0] == w && issued[done..][1..] == tx;
      OneDone(issued, done);
      ReadsAt(issued, done);
      if IsRead(w) {
        Deliver(byte);
      }
      done := done + 1;
      shifting := [];
      stopDet := stopDet || IsStop(w);
    }

    /** A byte comes; without room it is lost. */
    method Deliver(byte: Byte)
      requires Valid() && !aborted && done < |issued| && IsRead(issued[done])
      modifies this`rx, this`rxOver, this`sent
      ensures sent == old(sent) + [byte] && |rx| <= FIFO_SIZE && (old(rxOver) ==> rxOver)
      ensures !rxOver && !rxUnder ==> taken <= |sent| && rx == sent[taken..]
      ensures old(Sound()) && Fits(issued, taken) ==> Sound()
    {
      hide IsRead, IsStop, StopIn;
      if |rx| < FIFO_SIZE {
        rx := rx + [byte];
      } else {
        rxOver := true;
      }
      sent := sent + [byte];
    }

    /** What the bus does before the next access. */
    method MoveOn()
      requires Valid()
      modifies this
      ensures Valid() && MovedOn(old(Now()), Now())
      ensures bus(accesses) == [] ==> Now() == old(Now())
      ensures GoesOn(bus(accesses)) ==> Served(old(Now()), Now())
      ensures bus(accesses) == [GiveUp(false)] && old(shifting + tx) != [] ==> aborted && done == old(done)
    {
      hide MovedOn, Served, AllReads, StopIn, IsRead, IsStop;
      var moves, k := bus(accesses), 0;
      NotMoved(Now());
      while k < |moves|
        invariant 0 <= k <= |moves| && Valid() && MovedOn(old(Now()), Now()) && (k == 0 ==> Now() == old(Now()))
        invariant GoesOn(moves) ==> aborted == old(aborted) && (0 < k ==> Served(old(Now()), Now()))
        invariant moves == [GiveUp(false)] && 0 < k && old(shifting + tx) != [] ==> aborted && done == old(done)
        invariant accesses == old(accesses)
      {
        ghost var before := Now();
        Step(moves[k]);
        MovedFurther(old(Now()), before, Now());
        k := k + 1;
      }
    }

    /** What the bus has done by the next access. */
    method Run()
      requires Valid()
      modifies this
      ensures Valid() && Accessed(bus, old(Now()), Now())
    {
      hide AllReads, StopIn, GoesOn;
      MoveOn();
      accesses := accesses + 1;
    }

    // -----------------------------------------------------------------------
    // Register accesses, each after the bus moved on as far as it likes
    // -----------------------------------------------------------------------

    method TxLevel() returns (n: nat)
      requires Valid()
      modifies this
      ensures Valid() && Accessed(bus, old(Now()), Now()) && n == |tx|
    {
      Run();
      n := |tx|;
    }

    method RxNotEmpty() returns (any: bool)
      requires Valid()
      modifies this
      ensures Valid() && Accessed(bus, old(Now()), Now()) && any == (rx != [])
    {
      Run();
      any := rx != [];
    }

    method RxLevel() returns (n: nat)
      requires Valid()
      modifies this
      ensures Valid() && Accessed(bus, old(Now()), Now()) && n == |rx|
    {
      Run();
      n := |rx|;
    }

    method SetThreshold(n: nat)
      requires Valid()
      modifies this
      ensures Valid() && rxThreshold == n && Accessed(bus, old(Now()).(rxThreshold := n), Now())
    {
      Run();
      rxThreshold := n;
    }

    /** An access that changes nothing the driver reads back: to the interrupt mask or the
        clock. */
    method Touch()
      requires Valid()
      modifies this
      ensures Valid() && Accessed(bus, old(Now()), Now())
    {
      Run();
    }

    /** Writes a word to IC_DATA_CMD.  Without room in the FIFO it is lost, and so it is once
        the bus gave up. */
    method Put(w: bv16)
      requires Valid()
      modifies this
      ensures Valid() && accesses == old(accesses) + 1 && taken == old(taken) && rxThreshold == old(rxThreshold)
      ensures |tx| <= |old(tx)| + 1 && old(done) <= done <= |old(issued)| && old(sent) <= sent
      ensures stopTold == old(stopTold) && Work(Now()) <= Work(old(Now())) + 2
      ensures GoesOn(bus(old(accesses))) ==> aborted == old(aborted)
      ensures issued == old(issued) + [w] || (txOver && issued == old(issued))
      ensures |old(tx)| < FIFO_SIZE ==>
                issued == old(issued) + [w] && (old(Sound()) && Fits(old(issued), taken) ==> Sound())
      ensures bus(old(accesses)) == [] && |old(tx)| < FIFO_SIZE && !old(aborted) ==>
                !aborted && done == old(done) && tx == old(tx) + [w] && shifting == old(shifting)
    {
      hide IsRead, IsStop, AllReads, StopIn, Fits;
      Run();
      if |tx| == FIFO_SIZE {
        txOver := true;
        return;
      }
      OneMore(issued, w, done);
      issued := issued + [w];
      if !aborted {
        tx := tx + [w];
      }
    }

    /** Reads a byte from IC_DATA_CMD. */
    method Get() returns (b: Byte)
      requires Valid()
      modifies this
      ensures Valid() && accesses == old(accesses) + 1 && issued == old(issued) && rxThreshold == old(rxThreshold)
      ensures old(done) <= done && old(sent) <= sent
      ensures old(done) == |issued| && !old(aborted) ==> !aborted && sent == old(sent)
      ensures stopTold == old(stopTold) && Work(Now()) <= Work(old(Now()))
      ensures GoesOn(bus(old(accesses))) ==> aborted == old(aborted)
      ensures old(Sound()) && Fits(issued, old(taken)) && old(rx) != [] ==>
                Sound() && taken == old(taken) + 1 && old(taken) < |sent| && b == sent[old(taken)]
    {
      Run();
      if rx == [] {
        rxUnder := true;
        b := *;
      } else {
        b, rx, taken := rx[0], rx[1..], taken + 1;
      }
    }

    /** The conditions that hold, of those in `mask`; a stop condition told is cleared. */
    method Acknowledge(mask: Conditions) returns (c: Conditions)
      requires Valid()
      modifies this
      ensures Valid() && stopTold == (old(stopTold) || c.stopDet) && (mask.stopDet ==> !stopDet)
      ensures Accessed(bus, old(Now()), Now().(stopDet := c.stopDet || stopDet, stopTold := old(stopTold)))
      ensures c == Masked(Conditions(aborted, tx == [], rxUnder, c.stopDet, |rx| > rxThreshold), mask)
      ensures c.stopDet && !aborted ==> StopIn(issued[..done])
    {
      hide Accessed, MovedOn, StopIn, AllReads;
      Run();
      assert stopTold == old(stopTold) by {
        AccessKeepsTold(bus, old(Now()), Now());
      }
      c := Masked(Conditions(aborted, tx == [], rxUnder, stopDet, |rx| > rxThreshold), mask);
      ghost var before := Now();
      if c.stopDet {
        stopDet, stopTold := false, true;
      }
      assert before == Now().(stopDet := c.stopDet || stopDet, stopTold := old(stopTold));
    }
  }
}
