/** The transfer engine: the interrupt thread that feeds commands to the controller and
    collects what comes back, while the bus works on. */
module I2cDriver {
  import opened I2cController

  datatype Status = Success | Aborted | Unsuccessful

  const NO_MASK := Conditions(false, false, false, false, false)
  const WRITE_MASK := Conditions(true, true, false, true, false)

  function ReadMask(rxFull: bool): Conditions { Conditions(true, false, true, true, rxFull) }

  // ---------------------------------------------------------------------------
  // The words of a transfer
  // ---------------------------------------------------------------------------

  /** The restart and stop bits of word `i` of `n`, added to `w`. */
  function Framed(w: bv16, i: nat, n: nat): bv16
    requires i < n
  {
    var w := if i == 0 then w | CMD_RESTART else w;
    if n - i - 1 == 0 then
      if n == 1 then w | CMD_STOP | CMD_RESTART else w | CMD_STOP
    else w
  }

  /** The same, as the loops put it together; `last` tells whether it is the last word. */
  method Frame(w: bv16, i: nat, n: nat) returns (word: bv16, last: bool)
    requires i < n
    ensures word == Framed(w, i, n) && (last <==> i == n - 1)
  {
    word, last := w, false;
    if i == 0 {
      word := word | CMD_RESTART;
    }
    if n - i - 1 == 0 {
      word := word | CMD_STOP;
      if n == 1 {
        word := word | CMD_RESTART;
      }
      last := true;
    }
  }

  function ReadWord(i: nat, n: nat): bv16
    requires i < n
  {
    Framed(CMD_READ, i, n)
  }

  function Widened(b: Byte): bv16 { b as bv16 }

  function WriteWord(b: Byte, i: nat, n: nat): bv16
    requires i < n
  {
    Framed(Widened(b), i, n)
  }

  lemma FramedMeans(w: bv16, i: nat, n: nat)
    requires i < n && w & (CMD_STOP | CMD_RESTART) == 0
    ensures IsRestart(Framed(w, i, n)) <==> i == 0
    ensures IsStop(Framed(w, i, n)) <==> i == n - 1
    ensures Framed(w, i, n) & 0x1ff == w & 0x1ff
  {
  }

  /** A read word asks for a byte; the first one restarts the bus and the last one stops it. */
  lemma ReadWordMeans(i: nat, n: nat)
    requires i < n
    ensures var w := ReadWord(i, n); IsRead(w) && (IsRestart(w) <==> i == 0) && (IsStop(w) <==> i == n - 1)
  {
    FramedMeans(CMD_READ, i, n);
    ReadBit(ReadWord(i, n));
  }

  lemma ReadBit(w: bv16)
    requires w & 0x1ff == 0x100
    ensures IsRead(w)
  {
  }

  lemma ByteBits(b: Byte)
    ensures (b as bv16) & (CMD_STOP | CMD_RESTART) == 0 && (b as bv16) & 0x1ff == b as bv16
    ensures (b as bv16) <= 0xff
  {
  }

  /** A write word carries its byte; the first one restarts the bus and the last one stops
      it. */
  lemma WriteWordMeans(b: Byte, i: nat, n: nat)
    requires i < n
    ensures var w := WriteWord(b, i, n);
            w & 0x1ff == b as bv16 && !IsRead(w) && (IsRestart(w) <==> i == 0) && (IsStop(w) <==> i == n - 1)
  {
    ByteBits(b);
    FramedMeans(b as bv16, i, n);
    NoReadBit(WriteWord(b, i, n), b as bv16);
  }

  lemma NoReadBit(w: bv16, b: bv16)
    requires w & 0x1ff == b && b <= 0xff
    ensures !IsRead(w)
  {
  }

  /** The first `k` read words of a transfer of `n` bytes. */
  ghost function ReadWords(k: nat, n: nat): seq<bv16>
    requires k <= n
  {
    seq(k, i requires 0 <= i < k => ReadWord(i, n))
  }

  ghost function WriteWords(data: seq<Byte>, k: nat): seq<bv16>
    requires k <= |data|
  {
    seq(k, i requires 0 <= i < k => WriteWord(data[i], i, |data|))
  }

  lemma WriteWordsNext(data: seq<Byte>, k: nat)
    requires k < |data|
    ensures WriteWords(data, k + 1) == WriteWords(data, k) + [Framed(Widened(data[k]), k, |data|)]
  {
  }

  lemma ReadWordsNext(k: nat, n: nat)
    requires k < n
    ensures ReadWords(k + 1, n) == ReadWords(k, n) + [Framed(CMD_READ, k, n)]
  {
  }

  lemma ReadWordsFit(k: nat, n: nat, taken: nat)
    requires k <= n
    ensures AllReads(ReadWords(k, n)) && |ReadWords(k, n)| == k
    ensures k - taken <= FIFO_SIZE ==> Fits(ReadWords(k, n), taken)
  {
    forall i | 0 <= i < k
      ensures IsRead(ReadWords(k, n)[i])
    {
      ReadWordMeans(i, n);
    }
  }

  lemma WriteWordsFit(data: seq<Byte>, k: nat, taken: nat)
    requires k <= |data|
    ensures Fits(WriteWords(data, k), taken)
  {
    forall i | 0 <= i < k
      ensures !IsRead(WriteWords(data, k)[i])
    {
      WriteWordMeans(data[i], i, |data|);
    }
  }

  /** Only the last word of a read stops the bus. */
  lemma StopMeansAll(k: nat, n: nat, done: nat)
    requires done <= k <= n && StopIn(ReadWords(k, n)[..done])
    ensures done == k == n
  {
    var i :| 0 <= i < done && IsStop(ReadWords(k, n)[..done][i]);
    ReadWordMeans(i, n);
  }

  lemma LastStops(n: nat)
    requires 0 < n
    ensures StopIn(ReadWords(n, n)[..n])
  {
    ReadWordMeans(n - 1, n);
    assert IsStop(ReadWords(n, n)[..n][n - 1]);
  }

  /** Nor does any other of a write. */
  lemma WriteStopMeansAll(data: seq<Byte>, k: nat, done: nat)
    requires done <= k <= |data| && StopIn(WriteWords(data, k)[..done])
    ensures done == k == |data|
  {
    var i :| 0 <= i < done && IsStop(WriteWords(data, k)[..done][i]);
    WriteWordMeans(data[i], i, |data|);
  }

  function Min(a: nat, b: nat): nat { if a < b then a else b }

  /** One transfer request and the device context that serves it. */
  class Transfer {
    const hw: Controller
    const buf: array<Byte>
    const reading: bool
    var mask: Conditions
    var ioComplete: bool
    var rxRequest: nat
    var rxTransferred: nat
    var txTransferred: nat
    var status: Status
    var signalled: bool

    /** The request is copied, the controller restarted and all counts are set back. */
    constructor (controller: Controller, read: bool, data: seq<Byte>)
      modifies controller
      ensures hw == controller && fresh(buf) && buf[..] == data && reading == read && !signalled
      ensures mask == NO_MASK && status == Unsuccessful && !ioComplete
      ensures rxRequest == rxTransferred == txTransferred == 0
      ensures hw.done == |hw.issued| && !hw.aborted && hw.tx == [] && hw.accesses == old(controller.accesses)
      ensures !hw.stopTold
      ensures if read then Reading() else Writing()
    {
      hw, reading := controller, read;
      buf := new Byte[|data|](i requires 0 <= i < |data| => data[i]);
      mask, status, ioComplete, signalled := NO_MASK, Unsuccessful, false, false;
      rxRequest, rxTransferred, txTransferred := 0, 0, 0;
      new;
      controller.Restart();
    }

    /** A read under way: the words asked for so far, at most 255 of them unanswered, and
        the bytes taken so far in the buffer. */
    ghost predicate Reading()
      reads this, hw, buf
    {
      var n := buf.Length;
      && reading && hw.Valid() && hw.Sound()
      && rxTransferred <= rxRequest <= n && rxRequest - rxTransferred <= FIFO_SIZE - 1
      && hw.issued == ReadWords(rxRequest, n)
      && hw.taken == rxTransferred <= |hw.sent| && buf[..rxTransferred] == hw.sent[..rxTransferred]
    }

    ghost predicate ReadValid()
      reads this, hw, buf
    {
      ReadUnderWay() && (mask != NO_MASK ==> !hw.stopTold)
    }

    ghost predicate ReadUnderWay()
      reads this, hw, buf
    {
      && Reading()
      && (ioComplete <==> 0 < rxRequest == buf.Length)
      && (mask == NO_MASK || (mask == ReadMask(!ioComplete) && !signalled))
      && (mask != NO_MASK && ioComplete ==> rxTransferred < rxRequest)
      && (!ioComplete ==> rxRequest - rxTransferred <= hw.rxThreshold + 1)
      && (mask != NO_MASK && !ioComplete && buf.Length > 0 ==> rxRequest - rxTransferred == hw.rxThreshold + 1)
      && (signalled && status == Success ==> 0 < rxTransferred == buf.Length)
      && (signalled ==> status == Success || (status == Aborted && hw.aborted))
    }

    /** A write under way: the words of the first `txTransferred` bytes are queued. */
    ghost predicate Writing()
      reads `ioComplete, `txTransferred, hw, buf
    {
      var n := buf.Length;
      && !reading && hw.Valid() && hw.Sound()
      && txTransferred <= n && hw.issued == WriteWords(buf[..], txTransferred)
      && (ioComplete <==> 0 < txTransferred == n)
    }

    ghost predicate WriteValid()
      reads this, hw, buf
    {
      && Writing()
      && (mask == NO_MASK || (mask == WRITE_MASK && !signalled))
      && (status == Success ==> 0 < txTransferred == buf.Length)
      && (signalled ==> status == Success || (status == Aborted && hw.aborted))
    }

    /** A read that succeeded has every byte the bus delivered in its buffer, in order, and
        asked for exactly as many; a write that succeeded has queued every byte once.  No
        FIFO ever overflowed or was read empty. */
    lemma SuccessMeansAll()
      requires Valid() && signalled && status == Success
      ensures hw.Sound()
      ensures reading ==> buf[..] == hw.sent && hw.issued == ReadWords(buf.Length, buf.Length)
      ensures !reading ==> hw.issued == WriteWords(buf[..], buf.Length)
    {
      if reading {
        ReadWordsFit(rxRequest, buf.Length, rxTransferred);
        assert hw.sent[..buf.Length] == hw.sent;
      }
    }

    // -----------------------------------------------------------------------
    // Reads
    // -----------------------------------------------------------------------

    /** Asks for as many bytes as the FIFOs can take; all asked for before have been taken. */
    method PrepareForRead()
      requires Reading() && rxTransferred == rxRequest && !ioComplete && hw.done == |hw.issued| && !hw.aborted &&
               !signalled
      requires (ioComplete <==> 0 < rxRequest == buf.Length) && !hw.stopTold
      modifies this`mask, this`ioComplete, this`rxRequest, hw
      ensures ReadValid() && mask == ReadMask(!ioComplete)
      ensures rxRequest - rxTransferred == Min(buf.Length - rxTransferred, FIFO_SIZE - 1)
      ensures Work(hw.Now()) <= 2 * (rxRequest - rxTransferred) && (Willing(hw.bus) ==> !hw.aborted)
    {
      hide Framed, IsRead, IsStop, Fits, AllReads, ReadWords, Work, Willing;
      var index, stop, fill := rxRequest, false, 0;
      var rxSpace, txSpace := Spaces();
      while index < buf.Length && txSpace != 0 && rxSpace != 0
        invariant Reading() && index == rxRequest && fill == rxRequest - rxTransferred
        invariant rxSpace + fill == FIFO_SIZE - 1 && txSpace + fill == FIFO_SIZE && |hw.tx| <= fill
        invariant stop <==> (0 < fill && index == buf.Length)
        invariant ioComplete <==> 0 < rxRequest == buf.Length
        invariant !hw.stopTold && Work(hw.Now()) <= 2 * fill && (Willing(hw.bus) ==> !hw.aborted)
        decreases buf.Length - index
      {
        var last := AskNext(index);
        stop := stop || last;
        fill, index := fill + 1, index + 1;
        rxSpace, txSpace := rxSpace - 1, txSpace - 1;
      }
      Arm(fill, stop);
    }

    /** Waits for the stop, or for all that was asked for. */
    method Arm(fill: nat, stop: bool)
      requires Reading() && fill == rxRequest - rxTransferred && !signalled
      requires (ioComplete <==> 0 < rxRequest == buf.Length) && (stop <==> ioComplete) && (ioComplete ==> 0 < fill)
      requires !hw.stopTold && (rxRequest < buf.Length ==> 0 < fill)
      modifies this`mask, hw
      ensures ReadValid() && mask == ReadMask(!stop)
      ensures Work(hw.Now()) <= Work(old(hw.Now())) && (Willing(hw.bus) ==> hw.aborted == old(hw.aborted))
    {
      hide Framed, IsRead, IsStop, Fits, AllReads, ReadWords, StopIn, Work, Willing;
      if !stop {
        SetThreshold(if fill > 1 then fill - 1 else 0);
      }
      ReadAccess();
      mask := ReadMask(!stop);
    }

    method SetThreshold(n: nat)
      requires Reading()
      modifies hw
      ensures Reading() && hw.rxThreshold == n && hw.stopTold == old(hw.stopTold)
      ensures Work(hw.Now()) <= Work(old(hw.Now())) && (Willing(hw.bus) ==> hw.aborted == old(hw.aborted))
    {
      hide Framed, IsRead, IsStop, Fits, AllReads, ReadWords, StopIn;
      ReadWordsFit(rxRequest, buf.Length, rxTransferred);
      hw.SetThreshold(n);
    }

    /** An access that changes nothing, while a read is under way. */
    method ReadAccess()
      requires Reading()
      modifies hw
      ensures Reading() && hw.rxThreshold == old(hw.rxThreshold) && hw.stopTold == old(hw.stopTold)
      ensures Work(hw.Now()) <= Work(old(hw.Now())) && (Willing(hw.bus) ==> hw.aborted == old(hw.aborted))
    {
      hide Framed, IsRead, IsStop, Fits, AllReads, ReadWords, StopIn;
      ReadWordsFit(rxRequest, buf.Length, rxTransferred);
      hw.Touch();
    }

    /** The room in the two FIFOs; with nothing asked for and not taken it is all but one byte
        of the one and all of the other. */
    method Spaces() returns (rxSpace: nat, txSpace: nat)
      requires Reading() && rxTransferred == rxRequest && hw.done == |hw.issued| && !hw.aborted
      modifies hw
      ensures Reading() && hw.tx == [] && rxSpace == FIFO_SIZE - 1 && txSpace == FIFO_SIZE
      ensures !hw.aborted && hw.stopTold == old(hw.stopTold) && Work(hw.Now()) == 0
    {
      hide Framed, IsRead, IsStop, Fits, AllReads;
      ReadWordsFit(rxRequest, buf.Length, rxTransferred);
      hw.Idle();
      var rxLevel := hw.RxLevel();
      hw.Idle();
      var txLevel := hw.TxLevel();
      hw.Idle();
      rxSpace, txSpace := FIFO_SIZE - rxLevel - 1, FIFO_SIZE - txLevel;
    }

    /** Asks for the byte at `index`. */
    method AskNext(index: nat) returns (last: bool)
      requires Reading() && index == rxRequest < buf.Length && rxRequest - rxTransferred < FIFO_SIZE - 1 &&
               |hw.tx| < FIFO_SIZE
      modifies this`ioComplete, this`rxRequest, hw
      ensures Reading() && rxRequest == index + 1 && |hw.tx| <= |old(hw.tx)| + 1
      ensures (last <==> rxRequest == buf.Length) && ioComplete == (old(ioComplete) || last)
      ensures hw.stopTold == old(hw.stopTold) && Work(hw.Now()) <= Work(old(hw.Now())) + 2
      ensures Willing(hw.bus) ==> hw.aborted == old(hw.aborted)
    {
      hide Framed, IsRead, IsStop, Fits, AllReads, ReadWords, Work;
      var word;
      word, last := Frame(CMD_READ, index, buf.Length);
      if last {
        ioComplete := true;
      }
      ReadWordsFit(rxRequest, buf.Length, rxTransferred);
      ReadWordsNext(rxRequest, buf.Length);
      hw.Put(word);
      rxRequest := rxRequest + 1;
    }

    /** Takes at least what the receive FIFO holds; once all bytes asked for have come, that
        is all of them. */
    method TransferDataRead()
      requires Reading()
      modifies this`rxTransferred, hw, buf
      ensures Reading() && hw.rxThreshold == old(hw.rxThreshold) && rxTransferred >= old(rxTransferred) + |old(hw.rx)|
      ensures hw.stopTold == old(hw.stopTold)
      ensures old(hw.done) == |hw.issued| && !old(hw.aborted) ==>
                rxTransferred == rxRequest && hw.done == |hw.issued| && !hw.aborted
    {
      hide Framed, IsRead, IsStop, Fits, AllReads;
      ReadWordsFit(rxRequest, buf.Length, rxTransferred);
      var index := rxTransferred;
      var level := hw.RxLevel();
      ghost var n := rxTransferred + level;
      while index < buf.Length && level != 0
        invariant Reading() && index == rxTransferred && 0 <= level <= |hw.rx| && rxTransferred + level == n
        invariant hw.rxThreshold == old(hw.rxThreshold) && hw.stopTold == old(hw.stopTold)
        invariant old(hw.done) == |hw.issued| && !old(hw.aborted) ==>
                  n == rxRequest && hw.done == |hw.issued| && !hw.aborted
        decreases level
      {
        TakeNext(index);
        index, level := index + 1, level - 1;
      }
    }

    /** Takes the byte at `index` from the receive FIFO. */
    method TakeNext(index: nat)
      requires Reading() && index == rxTransferred < buf.Length && hw.rx != []
      modifies this`rxTransferred, hw, buf
      ensures Reading() && rxTransferred == index + 1 && |hw.rx| >= |old(hw.rx)| - 1
      ensures hw.rxThreshold == old(hw.rxThreshold) && hw.stopTold == old(hw.stopTold)
      ensures old(hw.done) == |hw.issued| && !old(hw.aborted) ==> hw.done == |hw.issued| && !hw.aborted
    {
      hide Framed, IsRead, IsStop, Fits;
      ReadWordsFit(rxRequest, buf.Length, rxTransferred);
      var data := hw.Get();
      buf[index] := data;
      rxTransferred := rxTransferred + 1;
      assert buf[..rxTransferred] == buf[..index] + [data];
      assert hw.sent[..rxTransferred] == hw.sent[..index] + [data];
    }

    // -----------------------------------------------------------------------
    // Writes
    // -----------------------------------------------------------------------

    /** Queues as many of the bytes left as the transmit FIFO can take.  (While the bus rests
        that is all of them, if they fit an empty FIFO.) */
    method TransferDataWrite()
      requires Writing() && !signalled
      modifies this`mask, this`ioComplete, this`txTransferred, hw
      ensures Writing() && mask == WRITE_MASK && old(txTransferred) <= txTransferred
      ensures old(hw.tx) == [] ==> txTransferred - old(txTransferred) == Min(buf.Length - old(txTransferred), FIFO_SIZE)
      ensures Work(hw.Now()) <= Work(old(hw.Now())) + 2 * (txTransferred - old(txTransferred))
      ensures Willing(hw.bus) ==> hw.aborted == old(hw.aborted)
      ensures var left := buf.Length - old(txTransferred);
              QuietUpTo(hw.bus, old(hw.accesses) + left + 2) && old(hw.tx) == [] && left <= FIFO_SIZE
              && !old(hw.aborted) ==>
                && txTransferred == buf.Length && !hw.aborted && hw.done == old(hw.done) && |hw.tx| == left
                && hw.accesses == old(hw.accesses) + left + 2
    {
      hide Writing, Work, Willing;
      ghost var from, time, done := txTransferred, hw.accesses, hw.done;
      WritingBounds();
      ghost var quiet := QuietUpTo(hw.bus, hw.accesses + (buf.Length - from) + 2) && hw.tx == [] && !hw.aborted
                         && buf.Length - from <= FIFO_SIZE;
      var index := txTransferred;
      var level := WriteAccess();
      var space := FIFO_SIZE - level;
      while index < buf.Length && space != 0
        invariant Writing() && index == txTransferred <= buf.Length && 0 <= space && space + |hw.tx| <= FIFO_SIZE
        invariant from <= index && (old(hw.tx) == [] ==> space + (index - from) == FIFO_SIZE)
        invariant Work(hw.Now()) <= Work(old(hw.Now())) + 2 * (index - from)
        invariant Willing(hw.bus) ==> hw.aborted == old(hw.aborted)
        invariant quiet ==> from <= index && Resting(from, time + 1, done) && space == FIFO_SIZE - |hw.tx|
        decreases buf.Length - index
      {
        QueueNext(index);
        index, space := index + 1, space - 1;
      }
      var _ := WriteAccess();
      mask := WRITE_MASK;
    }

    /** The bus has done nothing since access `time`; the bytes from `from` on are in the FIFO. */
    ghost predicate Resting(from: nat, time: nat, done: nat)
      reads this, hw
    {
      && from <= txTransferred && !hw.aborted && hw.done == done
      && |hw.tx| == txTransferred - from && hw.accesses == time + |hw.tx|
    }

    lemma WritingBounds()
      requires Writing()
      ensures txTransferred <= buf.Length && |hw.tx| <= FIFO_SIZE && hw.Valid()
    {
    }

    /** An access that is not to the data: the FIFO's level is read, or a mask written. */
    method WriteAccess() returns (level: nat)
      requires Writing()
      modifies hw
      ensures Writing() && level == |hw.tx| <= |old(hw.tx)| && level <= FIFO_SIZE && hw.accesses == old(hw.accesses) + 1
      ensures hw.bus(old(hw.accesses)) == [] ==>
                hw.tx == old(hw.tx) && hw.aborted == old(hw.aborted) && hw.done == old(hw.done)
      ensures Work(hw.Now()) <= Work(old(hw.Now())) && (Willing(hw.bus) ==> hw.aborted == old(hw.aborted))
    {
      hide Framed, IsRead, IsStop, Fits, WriteWords;
      WriteWordsFit(buf[..], txTransferred, hw.taken);
      level := hw.TxLevel();
    }

    /** Queues the byte at `index`. */
    method QueueNext(index: nat)
      requires Writing() && index == txTransferred < buf.Length && |hw.tx| < FIFO_SIZE
      modifies this`ioComplete, this`txTransferred, hw
      ensures Writing() && txTransferred == index + 1 && |hw.tx| <= |old(hw.tx)| + 1
      ensures hw.accesses == old(hw.accesses) + 1
      ensures hw.bus(old(hw.accesses)) == [] && !old(hw.aborted) ==>
                !hw.aborted && hw.done == old(hw.done) && |hw.tx| == |old(hw.tx)| + 1
      ensures Work(hw.Now()) <= Work(old(hw.Now())) + 2 && (Willing(hw.bus) ==> hw.aborted == old(hw.aborted))
    {
      hide Framed, IsRead, IsStop, Fits, AllReads, NoReads, WriteWords, Widened, Work;
      var word, last := Frame(Widened(buf[index]), index, buf.Length);
      if last {
        ioComplete := true;
      }
      WriteWordsFit(buf[..], txTransferred, hw.taken);
      WriteWordsNext(buf[..], txTransferred);
      hw.Put(word);
      txTransferred := txTransferred + 1;
    }

    // -----------------------------------------------------------------------
    // The interrupt thread
    // -----------------------------------------------------------------------

    ghost predicate Valid()
      reads this, hw, buf
    {
      if reading then ReadValid() else WriteValid()
    }

    /** The first commands of a read; a write waits for the controller to ask for words. */
    method Start()
      requires !signalled && !ioComplete && rxRequest == rxTransferred == txTransferred == 0 && status == Unsuccessful
      requires hw.done == |hw.issued| && !hw.aborted && (if reading then Reading() else Writing()) && !hw.stopTold
      modifies this`mask, this`ioComplete, this`rxRequest, hw
      ensures Valid() && Waiting() && (Willing(hw.bus) ==> !hw.aborted && Due() <= 3 * buf.Length)
      ensures Valid() && (!reading ==> hw.accesses == old(hw.accesses) + 1 && mask == WRITE_MASK)
      ensures !reading && hw.bus(old(hw.accesses)) == [] ==>
                hw.tx == old(hw.tx) && !hw.aborted && hw.done == old(hw.done)
    {
      hide Framed, IsRead, IsStop, Fits, AllReads, NoReads, ReadWords, WriteWords, Willing, StopIn;
      assert |hw.issued[hw.done..]| == 0;
      if reading {
        PrepareForRead();
      } else {
        var _ := WriteAccess();
        mask := WRITE_MASK;
      }
    }

    /** All words written are finished, and the bus did not give up. */
    ghost predicate AllCome()
      reads hw
    {
      hw.done == |hw.issued| && !hw.aborted
    }

    /** The conditions this transfer waits for that hold. */
    function Awaited(): Conditions
      reads this, hw
    {
      Masked(Conditions(hw.aborted, hw.tx == [], false, hw.stopDet, |hw.rx| > hw.rxThreshold), mask)
    }

    /** An interrupt is still to come. */
    ghost predicate Waiting()
      reads this
    {
      mask != NO_MASK
    }

    /** Three steps for each word to be written yet, and what the bus has to do for the others. */
    ghost function Due(): int
      reads this, hw
    {
      3 * (buf.Length - if reading then rxRequest else txTransferred) + Work(hw.Now())
    }

    lemma DueIsLeft()
      requires Valid()
      ensures 0 <= Due()
      ensures signalled ==> status == Success || (status == Aborted && hw.aborted)
    {
    }

    lemma ReadNeverStuck()
      requires ReadValid() && Waiting() && 0 < buf.Length && AllCome()
      ensures Awaited() != NO_MASK
    {
      hide Framed, IsRead, IsStop, Fits, AllReads, ReadWords, StopIn;
      assert Reading() && hw.Valid();
      ReadWordsFit(rxRequest, buf.Length, rxTransferred);
      if ioComplete {
        LastStops(buf.Length);
        assert hw.issued[..hw.done] == ReadWords(buf.Length, buf.Length)[..buf.Length];
        assert Awaited().stopDet;
      } else {
        assert |hw.sent| == rxRequest;
        assert Awaited().rxFull;
      }
    }

    /** A transfer is never stuck: when the bus has nothing to do, a condition that the transfer
        waits for holds. */
    lemma NeverStuck()
      requires Valid() && Waiting() && 0 < buf.Length && !hw.aborted && Work(hw.Now()) == 0
      ensures Awaited() != NO_MASK
    {
      hide Framed, IsRead, IsStop, Fits, AllReads, ReadWords, WriteWords, StopIn;
      assert hw.Valid();
      assert |hw.issued[hw.done..]| == 0;
      if reading {
        ReadNeverStuck();
      } else {
        assert Awaited().txEmpty;
      }
    }

    /** What an access that acknowledges the awaited conditions does. */
    twostate predicate Acknowledged(stat: Conditions)
      reads this, hw
    {
      && stat == Masked(stat, mask) && !stat.rxUnder && (stat.txAbort ==> hw.aborted) && (stat.txEmpty ==> hw.tx == [])
      && (old(Awaited()).txAbort ==> stat.txAbort) && (old(Awaited()).stopDet ==> stat.stopDet)
      && (old(Awaited()).rxFull && !stat.txAbort ==> stat.rxFull)
      && (old(Awaited()).txEmpty ==> stat.txEmpty)
      && hw.accesses == old(hw.accesses) + 1
      && (hw.bus(old(hw.accesses)) == [] ==> stat == old(Awaited()) && hw.aborted == old(hw.aborted) &&
                                             hw.tx == old(hw.tx) && hw.done == old(hw.done))
      && Work(hw.Now()) <= Work(old(hw.Now()))
      && (GoesOn(hw.bus(old(hw.accesses))) ==>
            hw.aborted == old(hw.aborted) &&
            (hw.aborted || Work(old(hw.Now())) == 0 || Work(hw.Now()) < Work(old(hw.Now()))))
    }

    method ReadTold() returns (stat: Conditions)
      requires ReadValid()
      modifies hw
      ensures ReadUnderWay() && (stat.stopDet || ReadValid()) && Acknowledged(stat)
      ensures !stat.txAbort && stat.stopDet ==> ioComplete && AllCome()
      ensures !stat.txAbort && stat.rxFull ==> !ioComplete && AllCome()
    {
      hide Framed, IsRead, IsStop, Fits, AllReads;
      ReadWordsFit(rxRequest, buf.Length, rxTransferred);
      stat := hw.Acknowledge(mask);
      if !stat.txAbort && stat.stopDet {
        StopMeansAll(rxRequest, buf.Length, hw.done);
      }
    }

    method WriteTold() returns (stat: Conditions)
      requires WriteValid()
      modifies hw
      ensures WriteValid() && Acknowledged(stat) && (!stat.txAbort && stat.stopDet ==> stat.txEmpty)
    {
      hide Framed, IsRead, IsStop, Fits, AllReads;
      WriteWordsFit(buf[..], txTransferred, hw.taken);
      stat := hw.Acknowledge(mask);
      if !stat.txAbort && stat.stopDet {
        WriteStopMeansAll(buf[..], txTransferred, hw.done);
      }
    }

    /** The conditions this transfer waits for that now hold.  A read is told of a stop only
        when all of it has come, and of a full FIFO only when all asked for has. */
    method Told() returns (stat: Conditions)
      requires Valid()
      modifies hw
      ensures if reading then ReadUnderWay() && (stat.stopDet || ReadValid()) else WriteValid()
      ensures stat == Masked(stat, mask) && !stat.rxUnder && (stat.txAbort ==> hw.aborted)
      ensures stat.txEmpty ==> hw.tx == []
      ensures reading && !stat.txAbort && stat.stopDet ==> ioComplete && AllCome()
      ensures reading && !stat.txAbort && stat.rxFull ==> !ioComplete && AllCome()
      ensures !reading && !stat.txAbort && stat.stopDet ==> stat.txEmpty
      ensures old(Awaited()).txAbort ==> stat.txAbort
      ensures old(Awaited()).stopDet ==> stat.stopDet
      ensures old(Awaited()).rxFull && !stat.txAbort ==> stat.rxFull
      ensures old(Awaited()).txEmpty ==> stat.txEmpty
      ensures hw.accesses == old(hw.accesses) + 1
      ensures hw.bus(old(hw.accesses)) == [] ==> stat == old(Awaited()) && hw.aborted == old(hw.aborted) &&
                                                 hw.tx == old(hw.tx) && hw.done == old(hw.done)
      ensures Work(hw.Now()) <= Work(old(hw.Now())) && (Willing(hw.bus) ==> hw.aborted == old(hw.aborted))
      ensures Willing(hw.bus) && !hw.aborted && Waiting() && 0 < buf.Length && stat == NO_MASK ==>
                Work(hw.Now()) < Work(old(hw.Now()))
    {
      hide Framed, IsRead, IsStop, Fits, AllReads, GoesOn;
      if Waiting() && 0 < buf.Length && !hw.aborted && Work(hw.Now()) == 0 {
        NeverStuck();
      }
      hide Work;
      if reading {
        stat := ReadTold();
      } else {
        stat := WriteTold();
      }
    }

    /** Whoever waits for the transfer is told that the bus gave up. */
    predicate GaveUp()
      reads this
    {
      signalled && status == Aborted
    }

    /** What one interrupt does.  The first condition told is the one that is served; once the
        caller has been woken nothing the bus does changes the result.  While the bus rests, a
        write that fits the FIFO is queued by one interrupt and reported as a success. */
    method Interrupt()
      requires Valid()
      modifies this, hw, buf
      ensures Valid() && (!reading ==> buf[..] == old(buf[..])) && (old(Waiting()) ==> Waiting() || signalled)
      ensures old(signalled) ==> signalled && status == old(status)
      ensures old(Awaited()).txAbort ==> GaveUp()
      ensures old(Awaited()).rxFull && !GaveUp() ==>
                !signalled && rxTransferred == old(rxRequest)
                && rxRequest - rxTransferred == Min(buf.Length - rxTransferred, FIFO_SIZE - 1)
      ensures reading && old(Awaited()).stopDet ==> signalled && (status == Success || GaveUp())
      ensures old(Awaited()).txEmpty && !GaveUp() ==>
                && txTransferred - old(txTransferred) == Min(buf.Length - old(txTransferred), FIFO_SIZE)
                && (signalled <==> 0 < txTransferred == buf.Length) && (signalled ==> status == Success)
      ensures hw.bus(old(hw.accesses)) == [] && old(Awaited()) == NO_MASK ==>
                rxRequest == old(rxRequest) && rxTransferred == old(rxTransferred) &&
                txTransferred == old(txTransferred) && signalled == old(signalled) && mask == old(mask)
      ensures Willing(hw.bus) && old(Waiting()) && !old(hw.aborted) ==>
                !hw.aborted && (if buf.Length == 0 then !signalled
                                else (signalled && status == Success) || Due() < old(Due()))
      ensures var n := buf.Length;
              !reading && old(mask) == WRITE_MASK && 0 < n <= FIFO_SIZE && old(txTransferred) == 0
              && QuietUpTo(hw.bus, old(hw.accesses) + n + 3) && old(hw.tx) == [] && !old(hw.aborted) ==>
                && signalled && status == Success && !hw.aborted && |hw.tx| == n && hw.done == old(hw.done)
                && hw.accesses == old(hw.accesses) + n + 3
    {
      hide Framed, IsRead, IsStop, Fits, AllReads, ReadWords, WriteWords, Work, Willing, StopIn, NoReads;
      var stat := Told();
      if stat.txAbort {
        Finish(Aborted);
      } else if stat.txEmpty {
        if !ioComplete {
          TransferDataWrite();
        }
        if ioComplete {
          Finish(Success);
        }
      } else if stat.rxUnder {
        assert false;  // an empty receive FIFO is never read, so the transfer is not aborted here
      } else if stat.stopDet {
        if reading && ioComplete {
          LastBytes();
        }
        Finish(status);
      } else if stat.rxFull {
        if !ioComplete {
          RxFull();
        }
      }
    }

    /** The stop ends the read: the last bytes are taken. */
    method LastBytes()
      requires ReadUnderWay() && ioComplete && AllCome() && rxTransferred < rxRequest
      modifies this`rxTransferred, this`status, hw, buf
      ensures Reading() && 0 < rxTransferred == rxRequest && status == Success && AllCome()
    {
      hide Framed, IsRead, IsStop, Fits;
      ReadWordsFit(rxRequest, buf.Length, rxTransferred);
      var any := hw.RxNotEmpty();
      status := if any then Success else Unsuccessful;
      if any {
        TransferDataRead();
      }
    }

    /** The end of a transfer: interrupts off, the waiting caller woken. */
    method Finish(result: Status)
      modifies this`mask, this`status, this`signalled
      ensures mask == NO_MASK && status == result && signalled
    {
      status, mask, signalled := result, NO_MASK, true;
    }

    /** All bytes asked for have come: they are taken, and the next ones asked for. */
    method RxFull()
      requires ReadValid() && mask == ReadMask(true) && !ioComplete && !signalled
      requires hw.done == |hw.issued| && !hw.aborted
      modifies this`rxTransferred, this`rxRequest, this`status, this`mask, this`ioComplete, hw, buf
      ensures ReadValid() && mask == ReadMask(!ioComplete) && rxTransferred == old(rxRequest)
      ensures rxRequest - rxTransferred == Min(buf.Length - rxTransferred, FIFO_SIZE - 1)
      ensures Work(hw.Now()) <= 2 * (rxRequest - rxTransferred) && (Willing(hw.bus) ==> !hw.aborted)
    {
      while rxRequest - rxTransferred != 0
        invariant Reading() && hw.done == |hw.issued| && !hw.aborted && !hw.stopTold
        invariant !ioComplete && !(0 < rxRequest == buf.Length) && rxRequest == old(rxRequest)
        decreases rxRequest - rxTransferred
      {
        ReadWordsFit(rxRequest, buf.Length, rxTransferred);
        var any := hw.RxNotEmpty();
        status := if any then Success else Unsuccessful;
        if !any {
          break;
        }
        TransferDataRead();
      }
      PrepareForRead();
    }
  }

  /** A whole request, served by as many interrupts as `ticks`. */
  method Execute(hw: Controller, read: bool, data: seq<Byte>, ticks: nat) returns (t: Transfer)
    modifies hw
    ensures fresh(t) && t.hw == hw && t.reading == read && t.buf.Length == |data| && t.Valid()
    ensures t.signalled && t.status == Success ==>
              && hw.Sound()
              && (read ==> t.buf[..] == hw.sent && hw.issued == ReadWords(|data|, |data|))
              && (!read ==> hw.issued == WriteWords(data, |data|))
    ensures t.signalled ==> t.status == Success || (t.status == Aborted && hw.aborted)
    ensures Willing(hw.bus) && 0 < |data| && 3 * |data| < ticks ==> t.signalled && t.status == Success
    ensures Willing(hw.bus) && |data| == 0 ==> !t.signalled
  {
    hide Work, Willing, ReadWords, WriteWords;
    t := new Transfer(hw, read, data);
    t.Start();
    var k := 0;
    while k < ticks && !t.signalled
      invariant t.Valid() && fresh(t) && fresh(t.buf) && t.buf.Length == |data| && (!read ==> t.buf[..] == data)
      invariant k <= ticks && (t.Waiting() || t.signalled) && t.hw == hw && t.reading == read
      invariant Willing(hw.bus) ==> !hw.aborted && (if |data| == 0 then !t.signalled
                                                    else t.signalled || t.Due() + k <= 3 * |data|)
    {
      t.Interrupt();
      k := k + 1;
    }
    t.DueIsLeft();
    if t.signalled && t.status == Success {
      t.SuccessMeansAll();
    }
  }

  /** A write of one byte, served while the bus rests: it is reported as a success with the
      byte still in the FIFO. */
  method QueuedOnly(bus: Plan, b: Byte) returns (t: Transfer)
    requires QuietUpTo(bus, 5)
    ensures fresh(t) && fresh(t.hw) && !t.reading && t.buf[..] == [b] && t.Valid() && t.hw.bus == bus
    ensures t.signalled && t.status == Success
    ensures t.hw.accesses == 5 && !t.hw.aborted && |t.hw.tx| == 1 && t.hw.done == 0 && |t.hw.issued| == 1
  {
    var hw := new Controller(bus);
    t := new Transfer(hw, false, [b]);
    t.Start();
    t.Interrupt();
  }

  /** Then the bus gives up, and the byte is lost: the result stays what it was. */
  method SuccessIsEarly(b: Byte) returns (t: Transfer)
    ensures !t.reading && t.buf[..] == [b] && t.signalled && t.status == Success
    ensures t.hw.aborted && t.hw.done == 0 && |t.hw.issued| == 1
  {
    t := QueuedOnly((k: nat) => if k < 5 then [] else [GiveUp(false)], b);
    t.hw.Touch();
  }

  /** A read of 300 bytes, which the FIFO cannot hold at once, comes to its end on any bus that
      goes on. */
  method LongRead(bus: Plan) returns (t: Transfer)
    requires Willing(bus)
    ensures t.reading && t.signalled && t.status == Success && t.buf.Length == 300 && t.buf[..] == t.hw.sent
  {
    hide Willing;
    var hw := new Controller(bus);
    t := Execute(hw, true, seq(300, _ => 0), 901);
  }
}
