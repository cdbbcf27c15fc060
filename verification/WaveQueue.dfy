/** CWavehdrQueue as the driver keeps it: a linked list of client headers with pointers
    into it.  Every method is tied to the function of the same name in WaveModel and
    WaveWalk. */
module WaveQueue {
  import opened WaveModel
  import opened WaveWalk
  import opened WaveCost

  /** A client's WAVEHDR.  `data` is lpData with its dwBufferLength; the flag bits of
      dwFlags are separate fields; `loopStart` is the `reserved` field. */
  class WaveHdr {
    const data: seq<Byte>
    const beginLoop: bool
    var endLoop: bool
    var loops: nat
    var recorded: nat
    var done: bool
    var queued: bool
    var next: WaveHdr?
    var loopStart: WaveHdr?

    constructor (data: seq<Byte>, beginLoop: bool, endLoop: bool, loops: nat)
      ensures this.data == data && this.beginLoop == beginLoop && this.endLoop == endLoop
      ensures this.loops == loops && !queued && !done && recorded == 0
    {
      this.data := data;
      this.beginLoop := beginLoop;
      this.endLoop := endLoop;
      this.loops := loops;
      recorded := 0;
      done, queued := false, false;
      next, loopStart := null, null;
    }
  }

  ghost predicate Distinct(live: seq<WaveHdr>) {
    forall i, j :: 0 <= i < j < |live| ==> live[i] != live[j]
  }

  ghost predicate LinkAt(live: seq<WaveHdr>, i: nat)
    requires i < |live|
    reads live[i]
  {
    live[i].next == if i + 1 < |live| then live[i + 1] else null
  }

  /** Distinct headers, each linked to the next. */
  ghost predicate Chain(live: seq<WaveHdr>)
    reads live
  {
    Distinct(live) && forall i: nat | i < |live| :: LinkAt(live, i)
  }

  /** `h` holds what the model says of it. */
  ghost predicate Holds(h: WaveHdr, m: Hdr)
    reads h
  {
    && h.data == m.data && h.beginLoop == m.begin && h.endLoop == m.end
    && h.loops == m.loops && h.recorded == m.recorded && h.done == m.done
    && h.queued
  }

  /** What the client finds of a header that has gone back: off the list, done, and all of its
      bytes counted. */
  ghost predicate Returned(h: WaveHdr)
    reads h
  {
    !h.queued && h.next == null && h.done && h.recorded == |h.data|
  }

  /** A copying position points at a header still queued, or at one already handed back. */
  ghost predicate Points(p: WaveHdr?, at: int, live: seq<WaveHdr>, head: nat) {
    && (p == null <==> at == -1)
    && at < head + |live|
    && (head <= at ==> p == live[at - head])
  }

  /** A loop mark points at a header still queued, or at the start of the one loop that was
      handed back in part, `stray`. */
  ghost predicate Marked(p: WaveHdr?, mark: int, live: seq<WaveHdr>, head: nat, stray: WaveHdr?, strayMark: int) {
    if mark == -1 then p == null
    else if mark < head then mark == strayMark && p != null && p == stray
    else mark < head + |live| && p == live[mark - head]
  }

  ghost predicate RepresentAt(live: seq<WaveHdr>, hdrs: seq<Hdr>, head: nat, stray: WaveHdr?, strayMark: int, i: nat)
    requires |live| == |hdrs| - head && i < |live|
    reads live[i]
  {
    Holds(live[i], hdrs[head + i]) && Marked(live[i].loopStart, hdrs[head + i].loopStart, live, head, stray, strayMark)
  }

  /** The queued headers are those of the model from `head` on. */
  ghost predicate Represent(live: seq<WaveHdr>, hdrs: seq<Hdr>, head: nat, stray: WaveHdr?, strayMark: int)
    requires |live| == |hdrs| - head
    reads live
  {
    forall i: nat | i < |live| :: RepresentAt(live, hdrs, head, stray, strayMark, i)
  }

  /** `stray` is what it is said to be, and no header that is queued. */
  ghost predicate StrayFits(stray: WaveHdr?, strayMark: int, live: seq<WaveHdr>, hdrs: seq<Hdr>, head: nat)
    reads if stray == null then {} else {stray}
  {
    if stray == null then strayMark == -1
    else
      && stray !in live && !stray.queued && 0 <= strayMark < head && strayMark < |hdrs|
      && stray.loops == hdrs[strayMark].loops
  }

  datatype AddResult = Queued | Refused | Faulted

  lemma SliceStep<T>(s: seq<T>, k: nat)
    requires k < |s|
    ensures s[k..] != [] && s[k..][0] == s[k] && s[k..][1..] == s[k + 1..]
    ensures s[..k] + [s[k]] == s[..k + 1]
  {
  }

  class WavehdrQueue {
    var pHead: WaveHdr?
    var pTail: WaveHdr?
    var pCurrent: WaveHdr?
    var pLoopStart: WaveHdr?
    var pBuildLoopBegin: WaveHdr?
    var loopCount: nat
    var loopDecrement: nat
    var bytesInCurrent: nat
    var bytesBuffered: int
    var bytesCompleted: nat

    /** The state as a value, the headers still queued, and every header handed back to
        the client so far, oldest first. */
    ghost var model: Queue
    ghost var live: seq<WaveHdr>
    ghost var calledBack: seq<WaveHdr>

    /** The start of a loop that was handed back before the rest of it; the driver goes on
        reading its count.  `strayMark` is its position in the model. */
    ghost var stray: WaveHdr?
    ghost var strayMark: int

    ghost function Strays(): set<WaveHdr>
      reads this
    {
      if stray == null then {} else {stray}
    }

    ghost predicate Ends()
      reads `pHead, `pTail, `live
    {
      && pHead == (if live == [] then null else live[0])
      && pTail == (if live == [] then null else live[|live| - 1])
    }

    ghost predicate Linked()
      reads this, live, Strays()
    {
      && model.head <= |model.hdrs|
      && |live| == |model.hdrs| - model.head
      && Chain(live)
      && Represent(live, model.hdrs, model.head, stray, strayMark)
      && Ends() && StrayFits(stray, strayMark, live, model.hdrs, model.head)
    }

    /** The loop to which the next header will be queued. */
    ghost predicate BuildOk()
      reads this
    {
      Marked(pBuildLoopBegin, model.build, live, model.head, stray, strayMark)
    }

    ghost predicate Cursors()
      reads this
    {
      && model.head <= model.cur <= |model.hdrs|
      && |live| == |model.hdrs| - model.head
      && pCurrent == (if model.cur == |model.hdrs| then null else live[model.cur - model.head])
      && Points(pLoopStart, model.loopStart, live, model.head)
      && BuildOk()
      && loopCount == model.loopCount && loopDecrement == model.loopDec
      && bytesInCurrent == model.inCur
      && bytesBuffered == model.buffered && bytesCompleted == model.completed
    }

    ghost predicate Valid()
      reads this, live, Strays()
    {
      Linked() && Cursors() && Shape(model) && Ready(model) && Walkable(model.hdrs)
    }

    constructor ()
      ensures Valid() && model == EmptyQueue(0) && live == [] && calledBack == [] && Strays() == {}
    {
      pHead, pTail, pCurrent, pLoopStart, pBuildLoopBegin := null, null, null, null, null;
      loopCount, loopDecrement, bytesInCurrent := 0, 0, 0;
      bytesBuffered, bytesCompleted := 0, 0;
      model, live, calledBack := EmptyQueue(0), [], [];
      stray, strayMark := null, -1;
    }

    /** Ends the loop left open at the tail. */
    method CloseOpen()
      requires Linked() && pTail != null
      modifies `model, pTail`endLoop
      ensures Linked() && model == old(model).(hdrs := CloseLast(old(model).hdrs))
    {
      hide Distinct;
      At(|model.hdrs| - 1);
      pTail.endLoop := true;
      model := model.(hdrs := CloseLast(model.hdrs));
      forall i: nat | i < |live|
        ensures RepresentAt(live, model.hdrs, model.head, stray, strayMark, i) && LinkAt(live, i)
      {
        assert old(RepresentAt(live, model.hdrs, model.head, stray, strayMark, i));
        assert old(LinkAt(live, i));
      }
    }

    /** Marks `h` with the loop it falls into, closing a loop left open. */
    method MarkLoop(h: WaveHdr)
      requires Linked() && BuildOk()
      requires !h.queued && h !in live && h != stray && CanAdd(model, h.beginLoop)
      modifies `pBuildLoopBegin, `model, h`loopStart, Tail()`endLoop
      ensures Linked()
      ensures model == old(model).(hdrs := ClosedFor(old(model), h.beginLoop))
      ensures h.loopStart == if h.beginLoop then h else old(pBuildLoopBegin)
      ensures pBuildLoopBegin == if h.endLoop then null else h.loopStart
      ensures h.endLoop == old(h.endLoop) && h.loops == old(h.loops) && !h.queued
    {
      if h.beginLoop {
        if pBuildLoopBegin != null {
          assert pTail != null;
          CloseOpen();
        }
        pBuildLoopBegin := h;
      }
      hide Distinct, StrayFits;
      label Closed:
      h.loopStart := pBuildLoopBegin;
      if h.endLoop {
        pBuildLoopBegin := null;
      }
      forall i: nat | i < |live|
        ensures RepresentAt(live, model.hdrs, model.head, stray, strayMark, i) && LinkAt(live, i)
      {
        assert old@Closed(RepresentAt(live, model.hdrs, model.head, stray, strayMark, i));
        assert old@Closed(LinkAt(live, i));
      }
    }

    ghost function Tail(): set<WaveHdr>
      reads this
    {
      if pTail == null then {} else {pTail}
    }

    /** Links `h` in as the new tail; it becomes current if all before it are copied. */
    method LinkTail(h: WaveHdr)
      requires Chain(live) && Ends() && h !in live && (live == [] ==> pCurrent == null)
      modifies `pHead, `pTail, `pCurrent, `bytesInCurrent, `live, h, Tail()`next
      ensures Chain(live) && Ends() && live == old(live) + [h]
      ensures !h.done && h.recorded == 0 && h.queued
      ensures h.endLoop == old(h.endLoop) && h.loops == old(h.loops) && h.loopStart == old(h.loopStart)
      ensures old(pCurrent) == null ==> pCurrent == h && bytesInCurrent == |h.data|
      ensures old(pCurrent) != null ==> pCurrent == old(pCurrent) && bytesInCurrent == old(bytesInCurrent)
    {
      if pHead == null {
        pHead := h;
        pTail := h;
        pCurrent := h;
        bytesInCurrent := |h.data|;
      } else {
        pTail.next := h;
        pTail := h;
        if pCurrent == null {
          pCurrent := h;
          bytesInCurrent := |h.data|;
        }
      }
      h.next := null;
      h.done := false;
      h.recorded := 0;
      h.queued := true;
      live := live + [h];
      forall i: nat | i < |live|
        ensures LinkAt(live, i)
      {
        if i < |old(live)| - 1 {
          assert old(LinkAt(live, i));
        }
      }
    }

    /** Links `h` in with the mark it has been given; `next` is what the model becomes. */
    method LinkMarked(h: WaveHdr, ghost m: Hdr, ghost next: Queue)
      requires Linked() && h !in live && h != stray && (live == [] ==> pCurrent == null)
      requires m == NewHdr(h.data, h.beginLoop, h.endLoop, h.loops).(loopStart := m.loopStart)
      requires next.head == model.head && next.hdrs == model.hdrs + [m]
      requires if h.loopStart == h then m.loopStart == |model.hdrs|
               else Marked(h.loopStart, m.loopStart, live, model.head, stray, strayMark)
      modifies `pHead, `pTail, `pCurrent, `bytesInCurrent, `live, `model, h, Tail()`next
      ensures Linked() && live == old(live) + [h] && model == next
      ensures h.endLoop == old(h.endLoop) && h.loops == old(h.loops) && h.loopStart == old(h.loopStart)
      ensures old(pCurrent) == null ==> pCurrent == h && bytesInCurrent == |h.data|
      ensures old(pCurrent) != null ==> pCurrent == old(pCurrent) && bytesInCurrent == old(bytesInCurrent)
    {
      hide Distinct, Ends;
      LinkTail(h);
      model := next;
      forall i: nat | i < |live|
        ensures RepresentAt(live, model.hdrs, model.head, stray, strayMark, i)
      {
        if i < |live| - 1 {
          assert old(RepresentAt(live, model.hdrs, model.head, stray, strayMark, i));
        }
      }
    }

    /** The part of AddBuffer that changes the queue. */
    method Enqueue(h: WaveHdr)
      requires Linked() && Cursors() && CursorOk(model)
      requires !h.queued && h !in live && h != stray && CanAdd(model, h.beginLoop)
      modifies `pHead, `pTail, `pCurrent, `bytesInCurrent, `pBuildLoopBegin, `model, `live, h, Tail()
      ensures Linked() && Cursors()
      ensures model == Add(old(model), h.data, h.beginLoop, old(h.endLoop), old(h.loops))
      ensures live == old(live) + [h]
    {
      hide Chain, Represent, Ends, StrayFits, CanAdd, Shape, Walkable, Playable;
      ghost var next := Add(model, h.data, h.beginLoop, h.endLoop, h.loops);
      MarkLoop(h);
      LinkMarked(h, next.hdrs[|next.hdrs| - 1], next);
    }

    /** The client has `h` back, but a header still queued, or the next one, loops back to it. */
    ghost predicate Consulted(h: WaveHdr)
      reads this
    {
      && h == stray
      && (|| model.build == strayMark
          || exists i :: model.head <= i < |model.hdrs| && model.hdrs[i].loopStart == strayMark)
    }

    /** Forgets a start of a loop that nothing loops back to any more. */
    ghost method Release(h: WaveHdr)
      requires Linked() && Cursors() && h == stray && !Consulted(h)
      modifies `stray, `strayMark
      ensures Linked() && Cursors() && stray == null
    {
      label Before:
      stray, strayMark := null, -1;
      forall i: nat | i < |live|
        ensures RepresentAt(live, model.hdrs, model.head, stray, strayMark, i)
      {
        assert old@Before(RepresentAt(live, model.hdrs, model.head, stray, strayMark, i));
      }
    }

    /** A header that can be queued is. */
    method Accept(h: WaveHdr)
      requires Valid() && Playable(NewHdr(h.data, h.beginLoop, h.endLoop, h.loops))
      requires !h.queued && !Consulted(h) && CanAdd(model, h.beginLoop)
      modifies `pHead, `pTail, `pCurrent, `bytesInCurrent, `pBuildLoopBegin, `model, `live, `stray, `strayMark, h,
               Tail()
      ensures Valid() && Strays() <= old(Strays()) && live == old(live) + [h]
      ensures model == Add(old(model), h.data, h.beginLoop, old(h.endLoop), old(h.loops))
    {
      hide Chain, Represent, Ends, StrayFits, Marked, Points, Shape, Ready, Walkable, Add, Playable, CanAdd, CursorOk;
      if h == stray {
        Release(h);
      }
      AddKeepsAll(model, h.data, h.beginLoop, h.endLoop, h.loops);
      NotLive(h);
      ShapeCursor(model);
      Enqueue(h);
    }

    /** Queues a header.  A header that is queued already is refused; and when a loop is begun
        while another is open whose headers are all back with the client, there is no tail to
        end that one at, and the driver faults. */
    method AddBuffer(h: WaveHdr) returns (r: AddResult)
      requires Valid() && Playable(NewHdr(h.data, h.beginLoop, h.endLoop, h.loops)) && !Consulted(h)
      modifies this, h, Tail()
      ensures Valid() && calledBack == old(calledBack) && Strays() <= old(Strays())
      ensures r == if old(h.queued) then Refused else if !CanAdd(old(model), h.beginLoop) then Faulted else Queued
      ensures r == Queued ==>
        && model == Add(old(model), h.data, h.beginLoop, old(h.endLoop), old(h.loops))
        && live == old(live) + [h]
      ensures r != Queued ==> model == old(model) && live == old(live)
    {
      if h.queued {
        return Refused;
      }
      if h.beginLoop && pBuildLoopBegin != null && pTail == null {
        return Faulted;
      }
      hide Chain, Represent, Ends, StrayFits, Marked, Points, Shape, Ready, Walkable, Add, Playable;
      Accept(h);
      return Queued;
    }

    /** A header that is not queued is in no queue. */
    lemma NotLive(h: WaveHdr)
      requires Linked() && !h.queued
      ensures h !in live
    {
      forall i: nat | i < |live|
        ensures live[i] != h
      {
        assert RepresentAt(live, model.hdrs, model.head, stray, strayMark, i);
      }
    }

    /** What the model says of the header at position `i`, read off the list. */
    lemma At(i: nat)
      requires Linked() && model.head <= i < |model.hdrs|
      ensures Holds(live[i - model.head], model.hdrs[i])
      ensures live[i - model.head].next == if i + 1 < |model.hdrs| then live[i + 1 - model.head] else null
    {
      assert RepresentAt(live, model.hdrs, model.head, stray, strayMark, i - model.head);
      assert LinkAt(live, i - model.head);
    }

    /** Makes header `i` of the model current, all its bytes still to copy. */
    method MoveTo(h: WaveHdr?, ghost i: nat)
      requires Linked() && Cursors() && model.head <= i <= |model.hdrs|
      requires model.inCur == 0
      requires h == if i == |model.hdrs| then null else live[i - model.head]
      modifies `pCurrent, `bytesInCurrent, `model
      ensures Linked() && Cursors() && model == StepTo(old(model), i)
    {
      hide Chain, Represent, Ends, StrayFits, Marked;
      if i < |model.hdrs| { At(i); }
      pCurrent := h;
      if pCurrent != null {
        bytesInCurrent := |pCurrent.data|;
      }
      model := StepTo(model, i);
    }

    /** The current header is used up: back to the start of its loop, or on. */
    method FinishCurrent()
      requires Linked() && Cursors() && model.cur < |model.hdrs| && model.inCur == 0
      requires model.loopStart == -1
               || (model.head <= model.loopStart <= model.cur && model.loopDec <= model.loopCount)
      modifies `pCurrent, `pLoopStart, `loopCount, `bytesInCurrent, `model
      ensures model == RollOver(old(model)) && Cursors() && Linked()
    {
      hide Chain, Represent, Ends, StrayFits, Marked;
      At(model.cur);
      ghost var cur := model.cur;
      if pLoopStart != null {
        if pCurrent.endLoop || pCurrent.next == null {
          loopCount := (loopCount - loopDecrement) % DWORD_RANGE;
          model := model.(loopCount := loopCount, passes := if loopCount > 0 then model.passes + 1 else 0);
          if loopCount > 0 {
            MoveTo(pLoopStart, model.loopStart);
            return;
          } else {
            pLoopStart := null;
            model := model.(loopStart := -1);
          }
        }
      }
      MoveTo(pCurrent.next, cur + 1);
    }

    /** A block is about to be taken: note the loop it opens, if any. */
    method EnterCurrent()
      requires Linked() && Cursors() && model.cur < |model.hdrs|
      modifies `pLoopStart, `loopCount, `loopDecrement, `model
      ensures model == EnterLoop(old(model)) && Cursors() && Linked()
    {
      hide Chain, Represent, Ends, StrayFits, Marked;
      At(model.cur);
      if pLoopStart == null && pCurrent.beginLoop {
        pLoopStart := pCurrent;
        loopCount := pCurrent.loops;
        loopDecrement := if loopCount == INFINITE then 0 else 1;
      }
      model := EnterLoop(model);
    }

    /** Up to `n` bytes of the current header. */
    method CopyOut(n: nat) returns (block: seq<Byte>)
      requires Linked() && Cursors() && model.cur < |model.hdrs| && model.inCur <= |model.hdrs[model.cur].data|
      modifies `bytesInCurrent, `bytesBuffered, `model
      ensures Linked() && Cursors()
      ensures var k := Min(n, old(model).inCur);
              model == Taken(old(model), k) && block == Block(old(model), k)
    {
      hide Chain, Represent, Ends, StrayFits, Marked;
      At(model.cur);
      var k := n;
      if k > bytesInCurrent {
        k := bytesInCurrent;
      }
      var at := |pCurrent.data| - bytesInCurrent;
      block := pCurrent.data[at..at + k];
      bytesBuffered := bytesBuffered + k;
      bytesInCurrent := bytesInCurrent - k;
      model := Taken(model, k);
    }

    method GetNextBlock(n: nat) returns (ok: bool, block: seq<Byte>)
      requires Valid()
      modifies `pCurrent, `pLoopStart, `loopCount, `loopDecrement, `bytesInCurrent, `bytesBuffered, `model
      ensures Valid()
      ensures ok == (old(model).cur < |old(model).hdrs|)
      ensures ok ==> (model, block) == Next(old(model), n)
      ensures !ok ==> model == old(model) && block == []
    {
      hide Chain, Represent, Ends, StrayFits, Marked, Marks, Front, OpenUncounted, AllPlayable, LoopsAhead, RollOver;
      if pCurrent == null {
        return false, [];
      }
      hide Marks, Front, OpenUncounted, AllPlayable;
      NextKeepsShape(model, n);
      NextKeepsReady(model, n);
      NextFrame(model, n);
      EnterLoopCounts(model);
      EnterCurrent();
      block := CopyOut(n);
      if bytesInCurrent == 0 {
        FinishCurrent();
      }
      return true, block;
    }

    /** Takes the head off the list. */
    method UnlinkHead()
      requires Chain(live) && Ends() && live != []
      modifies `pHead, `pTail, `live, pHead`next
      ensures Chain(live) && Ends() && live == old(live)[1..] && old(pHead) == old(live)[0] && old(pHead) !in live
      ensures old(pHead).next == null
    {
      assert LinkAt(live, 0);
      var pwh := pHead;
      pHead := pwh.next;
      if pHead == null {
        pTail := null;
      }
      pwh.next := null;
      live := live[1..];
      forall i: nat | i < |live|
        ensures LinkAt(live, i)
      {
        assert old(LinkAt(live, i + 1));
      }
    }

    /** Unlinks the head and calls the client back with it. */
    method PopHead()
      requires Linked() && BuildOk() && live != [] && pHead != pCurrent && Nest(model.hdrs, model.head, model.build)
      modifies `pHead, `pTail, `model, `live, `calledBack, `stray, `strayMark, pHead
      ensures Linked() && BuildOk()
      ensures model == old(model).(head := old(model).head + 1)
      ensures live == old(live)[1..] && calledBack == old(calledBack) + [old(pHead)]
      ensures var h := old(pHead);
              !h.queued && h.next == null && h.done == old(h.done) && h.recorded == old(h.recorded)
      ensures Strays() <= old(Strays()) + {old(pHead)}
    {
      At(model.head);
      assert NestAt(model.hdrs, model.head, model.build);
      var pwh := pHead;
      UnlinkHead();
      hide Chain, Ends;
      pwh.queued := false;
      calledBack := calledBack + [pwh];
      if pwh.beginLoop {
        stray, strayMark := pwh, model.head;
      }
      model := model.(head := model.head + 1);
      forall i: nat | i < |live|
        ensures RepresentAt(live, model.hdrs, model.head, stray, strayMark, i)
      {
        assert old(RepresentAt(live, model.hdrs, model.head, stray, strayMark, i + 1));
        assert old(NestAt(model.hdrs, model.head, model.hdrs[model.head + (i + 1)].loopStart));
      }
    }

    /** The body of RemoveCompleteBlocks' loop. */
    method PopDone(ghost p: nat)
      requires Linked() && BuildOk() && HeadKnown() && DoneUpTo(model, p) && CopiedUpTo(p)
      requires Nest(model.hdrs, model.head, model.build)
      requires pHead != null && pHead.done
      modifies `pHead, `pTail, `model, `live, `calledBack, `stray, `strayMark, pHead
      ensures Linked() && BuildOk() && HeadKnown() && DoneUpTo(model, p) && CopiedUpTo(p)
      ensures Nest(model.hdrs, model.head, model.build)
      ensures model == old(model).(head := old(model).head + 1)
      ensures old(live) != [] && live == old(live)[1..] && calledBack == old(calledBack) + [old(live)[0]]
      ensures pHead != old(pHead) == old(live)[0] && Returned(old(live)[0])
      ensures Strays() <= old(Strays()) + {old(pHead)}
    {
      DoneBefore(model, p, model.head);
      assert pHead != pCurrent;
      PopHead();
      HeadIs();
    }

    ghost predicate HeadKnown()
      reads this, pHead
    {
      if pHead == null then live == []
      else live != [] && pHead == live[0] && model.head < |model.hdrs|
           && pHead.done == model.hdrs[model.head].done && pHead.recorded == model.hdrs[model.head].recorded
           && pHead.data == model.hdrs[model.head].data
    }

    lemma HeadIs()
      requires Linked()
      ensures HeadKnown()
    {
      if live != [] { At(model.head); }
    }

    /** The current header is none of those before `p`. */
    ghost predicate CopiedUpTo(p: nat)
      reads `live, `model, `pCurrent
    {
      forall i :: 0 <= i < |live| && i < p - model.head ==> live[i] != pCurrent
    }

    /** Hands back the headers up to `p`, the first that is not done. */
    method RemoveCompleteBlocks(ghost p: nat)
      requires Linked() && BuildOk() && DoneUpTo(model, p) && CopiedUpTo(p) && Nest(model.hdrs, model.head, model.build)
      modifies `pHead, `pTail, `model, `live, `calledBack, `stray, `strayMark, live
      ensures Linked() && BuildOk()
      ensures model == old(model).(head := p)
      ensures HandedBack(old(live), old(calledBack)) && AllReturned(old(live))
      ensures Strays() <= old(Strays()) + LiveSet(old(live))
    {
      assert Distinct(live);
      hide Chain, Represent, Ends, Nest, Marked, StrayFits, Returned, CopiedUpTo;
      ghost var was, log := live, calledBack;
      HeadIs();
      while pHead != null && pHead.done
        invariant Linked() && BuildOk() && HeadKnown() && DoneUpTo(model, p) && CopiedUpTo(p)
        invariant Nest(model.hdrs, model.head, model.build)
        invariant model == old(model).(head := model.head)
        invariant HandedBack(was, log) && AllReturned(was) && Strays() <= old(Strays()) + LiveSet(was)
        decreases p - model.head
      {
        PopNext(p, was, log);
      }
    }

    /** One turn of it. */
    method PopNext(ghost p: nat, ghost was: seq<WaveHdr>, ghost log: seq<WaveHdr>)
      requires Linked() && BuildOk() && HeadKnown() && DoneUpTo(model, p) && CopiedUpTo(p)
      requires Nest(model.hdrs, model.head, model.build)
      requires HandedBack(was, log) && AllReturned(was) && Distinct(was) && pHead != null && pHead.done
      modifies `pHead, `pTail, `model, `live, `calledBack, `stray, `strayMark, pHead
      ensures Linked() && BuildOk() && HeadKnown() && DoneUpTo(model, p) && CopiedUpTo(p)
      ensures Nest(model.hdrs, model.head, model.build)
      ensures model == old(model).(head := old(model).head + 1)
      ensures HandedBack(was, log) && AllReturned(was) && Strays() <= old(Strays()) + {old(pHead)}
      ensures pHead != null ==> pHead in was
    {
      hide Chain, Represent, Ends, Nest, Marked, StrayFits, BuildOk, DoneUpTo, CopiedUpTo, Returned;
      HandedBackStep(was, log);
      PopDone(p);
    }

    ghost function LiveSet(live: seq<WaveHdr>): set<WaveHdr> { set h | h in live }

    /** The headers no longer queued are a first part of `was`, and the client has been
        called back with them, in order, since its log was `log`. */
    ghost predicate HandedBack(was: seq<WaveHdr>, log: seq<WaveHdr>)
      reads `live, `calledBack
    {
      && |live| <= |was|
      && live == was[|was| - |live|..]
      && calledBack == log + was[..|was| - |live|]
    }

    /** Every header that went back is as the client expects. */
    ghost predicate AllReturned(was: seq<WaveHdr>)
      reads `live, was
    {
      forall i :: 0 <= i < |was| - |live| ==> Returned(was[i])
    }

    lemma HandedBackStep(was: seq<WaveHdr>, log: seq<WaveHdr>)
      requires HandedBack(was, log) && live != []
      ensures var k := |was| - |live|;
              live[1..] == was[k + 1..] && calledBack + [live[0]] == log + was[..k + 1]
    {
      SliceStep(was, |was| - |live|);
    }

    // -------------------------------------------------------------------------
    // Playing
    // -------------------------------------------------------------------------

    /** Header `p` of the model, played in part. */
    method PlayPart(pwh: WaveHdr, n: nat, ghost p: nat)
      requires Linked() && Cursors() && model.head <= p < |model.hdrs| && pwh == live[p - model.head]
      modifies `model, pwh`recorded
      ensures Linked() && Cursors()
      ensures var h := old(model).hdrs[p];
              model == old(model).(hdrs := old(model).hdrs[p := h.(recorded := h.recorded + n)])
    {
      hide Ends, Marked;
      At(p);
      pwh.recorded := pwh.recorded + n;
      model := model.(hdrs := model.hdrs[p := model.hdrs[p].(recorded := model.hdrs[p].recorded + n)]);
      forall i: nat | i < |live|
        ensures RepresentAt(live, model.hdrs, model.head, stray, strayMark, i) && LinkAt(live, i)
      {
        assert old(RepresentAt(live, model.hdrs, model.head, stray, strayMark, i));
        assert old(LinkAt(live, i));
      }
    }

    /** Header `p`, played out. */
    method PlayOut(pwh: WaveHdr, ghost p: nat)
      requires Linked() && Cursors() && model.head <= p < |model.hdrs| && pwh == live[p - model.head]
      modifies `model, pwh`recorded, pwh`done
      ensures Linked() && Cursors()
      ensures model == old(model).(hdrs := old(model).hdrs[p := Fill(old(model).hdrs[p])])
    {
      hide Ends, Marked;
      At(p);
      pwh.recorded := |pwh.data|;
      pwh.done := true;
      model := model.(hdrs := model.hdrs[p := Fill(model.hdrs[p])]);
      forall i: nat | i < |live|
        ensures RepresentAt(live, model.hdrs, model.head, stray, strayMark, i) && LinkAt(live, i)
      {
        assert old(RepresentAt(live, model.hdrs, model.head, stray, strayMark, i));
        assert old(LinkAt(live, i));
      }
    }

    /** One pass fewer for the loop that header `s` begins, which may be back with the client. */
    method CountPass(pStart: WaveHdr, ghost s: nat)
      requires Linked() && Cursors() && s < |model.hdrs|
      requires if s < model.head then s == strayMark && pStart == stray else pStart == live[s - model.head]
      modifies `model, pStart`loops
      ensures model == old(model).(hdrs := old(model).hdrs[s := CountDown(old(model).hdrs[s])])
      ensures Linked() && Cursors() && pStart.loops == model.hdrs[s].loops
    {
      hide Ends, Marked;
      if s >= model.head { At(s); }
      assert pStart.loops == model.hdrs[s].loops;
      if pStart.loops != INFINITE {
        pStart.loops := (pStart.loops + DWORD_RANGE - 1) % DWORD_RANGE;
      }
      model := model.(hdrs := model.hdrs[s := CountDown(model.hdrs[s])]);
      forall i: nat | i < |live|
        ensures RepresentAt(live, model.hdrs, model.head, stray, strayMark, i) && LinkAt(live, i)
      {
        assert old(RepresentAt(live, model.hdrs, model.head, stray, strayMark, i));
        assert old(LinkAt(live, i));
      }
    }

    /** The loop starts over at header `s`. */
    method Restart(pStart: WaveHdr, ghost s: nat)
      requires Linked() && Cursors() && model.head <= s < |model.hdrs| && pStart == live[s - model.head]
      modifies `model, pStart`recorded
      ensures Linked() && Cursors()
      ensures model == old(model).(hdrs := old(model).hdrs[s := old(model).hdrs[s].(recorded := 0)])
    {
      hide Ends, Marked;
      At(s);
      pStart.recorded := 0;
      model := model.(hdrs := model.hdrs[s := model.hdrs[s].(recorded := 0)]);
      forall i: nat | i < |live|
        ensures RepresentAt(live, model.hdrs, model.head, stray, strayMark, i) && LinkAt(live, i)
      {
        assert old(RepresentAt(live, model.hdrs, model.head, stray, strayMark, i));
        assert old(LinkAt(live, i));
      }
    }

    /** Header `p`, played to the end of its pass.  Returns the header to go on with. */
    method FinishPass(pwh: WaveHdr, ghost p: nat) returns (next: WaveHdr?)
      requires Linked() && Cursors() && model.head <= p < |model.hdrs| && pwh == live[p - model.head]
      requires var s := model.hdrs[p].loopStart;
               s == -1 || (0 <= s <= p && (s < model.head ==> model.hdrs[s].loops == 1))
      requires model.hdrs[p].loopStart == -1 ==> p != model.cur
      modifies `model, live, Strays()
      ensures Linked() && Cursors()
      ensures model == old(model).(hdrs := PassDone(old(model).hdrs, p))
      ensures next == HeaderAt(PassNext(old(model).hdrs, p))
    {
      hide Chain, Represent, Ends, StrayFits, Marked;
      MarkAt(p);
      ghost var s := model.hdrs[p].loopStart;
      next := pwh.next;
      if pwh.loopStart != null {
        var pStart := pwh.loopStart;
        if pStart.loops == 1 {
          PlayOut(pwh, p);
        }
        if pwh.endLoop {
          CountPass(pStart, s);
          if pStart.loops != 0 {
            next := pStart;
            Restart(pStart, s);
          }
        }
      } else {
        assert pwh != pCurrent by { NotCurrent(p); }
        PlayOut(pwh, p);
      }
    }

    /** What the model says of the header at position `p` and of its loop, read off the list. */
    lemma MarkAt(p: nat)
      requires Linked() && model.head <= p < |model.hdrs|
      requires -1 <= model.hdrs[p].loopStart <= p
      ensures var h, s := live[p - model.head], model.hdrs[p].loopStart;
              && Holds(h, model.hdrs[p]) && h.next == HeaderAt(p + 1)
              && (h.loopStart == null <==> s == -1)
              && (s != -1 ==> h.loopStart != null && h.loopStart.loops == model.hdrs[s].loops
                              && if s < model.head then s == strayMark && h.loopStart == stray
                                 else h.loopStart == live[s - model.head])
    {
      At(p);
      assert RepresentAt(live, model.hdrs, model.head, stray, strayMark, p - model.head);
      if model.head <= model.hdrs[p].loopStart {
        At(model.hdrs[p].loopStart);
      }
    }

    lemma NotCurrent(p: nat)
      requires Linked() && Cursors() && model.head <= p < |model.hdrs| && p != model.cur
      ensures live[p - model.head] != pCurrent
    {
    }

    /** One turn of the loop of AdvanceCurrentPosition. */
    method PlayTurn(pwh: WaveHdr, adv: nat, ghost p: nat) returns (next: WaveHdr?, left: nat)
      requires Linked() && Cursors() && model.head <= p < |model.hdrs| && pwh == live[p - model.head]
      requires var s := model.hdrs[p].loopStart;
               s == -1 || (0 <= s <= p && (s < model.head ==> model.hdrs[s].loops == 1))
      requires model.hdrs[p].loopStart == -1 && PassLeft(model.hdrs[p]) <= adv ==> p != model.cur
      modifies `bytesCompleted, `bytesBuffered, `model, live, Strays()
      ensures Linked() && Cursors()
      ensures model == Turn(old(model), p, adv).0 && left == Turn(old(model), p, adv).2
      ensures next == HeaderAt(Turn(old(model), p, adv).1)
    {
      hide Chain, Represent, Ends, StrayFits, PassDone, PassNext;
      At(p);
      var consume := if pwh.recorded < |pwh.data| then |pwh.data| - pwh.recorded else 0;
      if consume > adv {
        consume := adv;
        next := pwh;
        PlayPart(pwh, consume, p);
      } else {
        next := FinishPass(pwh, p);
      }
      CountBytes(consume);
      left := adv - consume;
    }

    method CountBytes(n: nat)
      requires Linked() && Cursors()
      modifies `bytesCompleted, `bytesBuffered, `model
      ensures Linked() && Cursors() && model == Count(old(model), n)
    {
      bytesCompleted := (bytesCompleted + n) % DWORD_RANGE;
      bytesBuffered := bytesBuffered - n;
      model := Count(model, n);
    }

    /** The queued header at position `p` of the model; none past the end. */
    ghost function HeaderAt(p: nat): WaveHdr?
      reads this
    {
      if model.head <= p < model.head + |live| then live[p - model.head] else null
    }

    /** One turn of a call that began at `q0`. */
    method PlayNext(pwh: WaveHdr, adv: nat, ghost q0: Queue, ghost n: nat, ghost f: nat, ghost p: nat)
      returns (next: WaveHdr?, left: nat, ghost f1: nat, ghost e: nat)
      requires Linked() && Cursors() && Underway(q0, n, model, f, p, adv)
      requires model.head <= p < |model.hdrs| && 0 < adv && pwh == HeaderAt(p)
      requires RemoveDone(Walk(q0, q0.head, n).0).head <= model.cur
      modifies `bytesCompleted, `bytesBuffered, `model, live, Strays()
      ensures Linked() && Cursors() && Underway(q0, n, model, f1, e, left) && next == HeaderAt(e)
      ensures model.head == old(model).head && model.cur == old(model).cur && |model.hdrs| == |old(model).hdrs|
      ensures model.head <= e <= |model.hdrs|
      ensures left < adv || (left == adv && Idle(model.hdrs, e) < Idle(old(model).hdrs, p))
    {
      hide Chain, Represent, Ends, StrayFits, Marked, Points, Turn, Walk, Underway, RemoveDone;
      HeaderUnderway(q0, n, model, f, p, adv);
      TurnUnderway(q0, n, model, f, p, adv);
      ghost var (s, e1, left1) := Turn(model, p, adv);
      e := e1;
      f1 := FrontNext(model.hdrs, f, p, adv);
      FrontWithin(q0, n, s, f1, e, left1);
      HeaderUnderway(q0, n, s, f1, e, left1);
      next, left := PlayTurn(pwh, adv, p);
    }

    /** The loop of AdvanceCurrentPosition; the headers before `f` are then played out. */
    method PlayBytes(n: nat) returns (ghost f: nat)
      requires Valid() && RemoveDone(Walk(model, model.head, n).0).head <= Segment(model)
      modifies `bytesCompleted, `bytesBuffered, `model, live, Strays()
      ensures Linked() && Cursors()
      ensures model == Walk(old(model), old(model).head, n).0 && PlayFrame(old(model), model)
      ensures old(model).head <= f <= Segment(model) && DoneUpTo(model, f) && RemoveDone(model) == model.(head := f)
    {
      assert Segment(model) <= model.cur;
      UnderwayAtStart(model, n);
      var adv := n;
      ghost var q0, p := model, model.head;
      f := model.head;
      var pwh := pHead;
      assert pwh == HeaderAt(p);
      hide Chain, Represent, Ends, StrayFits, Marked, Points, Turn, Walk, Underway, RemoveDone, Shape, Ready, Walkable;
      HeaderUnderway(q0, n, model, f, p, adv);
      while pwh != null && adv > 0
        invariant 0 <= adv && model.head == q0.head <= p <= |model.hdrs| && model.cur == q0.cur
        invariant Linked() && Cursors() && pwh == HeaderAt(p)
        invariant Underway(q0, n, model, f, p, adv)
        decreases adv, Idle(model.hdrs, p)
      {
        pwh, adv, f, p := PlayNext(pwh, adv, q0, n, f, p);
      }
      FrontWithin(q0, n, model, f, p, adv);
      UnderwayAtEnd(q0, n, model, f, p, adv);
    }

    /** RemoveCompleteBlocks while the copying side has not been reached. */
    method RemovePlayed(ghost p: nat)
      requires Linked() && Cursors() && DoneUpTo(model, p) && p <= model.cur
      requires model.loopStart == -1 || p <= model.loopStart
      requires Nest(model.hdrs, model.head, model.build)
      modifies `pHead, `pTail, `model, `live, `calledBack, `stray, `strayMark, live
      ensures Linked() && Cursors()
      ensures model == old(model).(head := p)
      ensures HandedBack(old(live), old(calledBack)) && AllReturned(old(live))
      ensures Strays() <= old(Strays()) + LiveSet(old(live))
    {
      hide Chain, Represent, Ends, StrayFits, Nest;
      NotCurrentBefore(p);
      RemoveCompleteBlocks(p);
    }

    /** Plays up to `advance` bytes of what has been handed out, and hands back the headers
        this completes; playing must not have got ahead of copying. */
    method AdvanceCurrentPosition(advance: nat)
      requires Valid() && Behind(model, advance)
      modifies this, live, Strays()
      ensures Valid() && model == Advance(old(model), advance)
      ensures HandedBack(old(live), old(calledBack)) && AllReturned(old(live))
      ensures Strays() <= old(Strays()) + LiveSet(old(live))
    {
      hide Chain, Represent, Ends, StrayFits, Walk, Front, Marks, OpenUncounted, RemoveDone, AllPlayable, LoopsAhead;
      AdvanceKeepsReady(model, advance);
      AdvanceKeepsShapeIff(model, advance);
      if bytesBuffered <= 0 {
        assert live == live[|live| - |live|..] && calledBack == calledBack + live[..0];
        return;
      }
      var n := advance;
      if n > bytesBuffered {
        n := bytesBuffered;
      }
      ghost var q0 := model;
      ghost var p := PlayBytes(n);
      MarksFrame(q0, model);
      MarksNest(model.hdrs, model.head);
      RemovePlayed(p);
    }

    lemma NotCurrentBefore(p: nat)
      requires Linked() && Cursors() && model.head <= p <= model.cur
      ensures CopiedUpTo(p)
    {
    }

    /** Everything queued goes back to the client, played or not. */
    method Reset()
      requires Valid()
      modifies this, live
      ensures Valid() && model == EmptyQueue(old(model).loopDec) && Strays() == {}
      ensures live == [] && calledBack == old(calledBack) + old(live) && AllReturned(old(live))
    {
      hide Chain, Represent, Ends, StrayFits, Marked, Shape, Ready, Walkable, Nest, Points;
      ResetNest();
      MarkAllDone();
      pCurrent := null;
      RemoveCompleteBlocks(|model.hdrs|);
      assert live == [] && old(live)[..|old(live)|] == old(live);
      ClearCounters();
    }

    lemma ResetNest()
      requires Valid()
      ensures Nest(model.hdrs, model.head, model.build) && model.loopDec <= 1
    {
      MarksNest(model.hdrs, model.head);
    }

    /** The end of Reset. */
    method ClearCounters()
      requires Linked() && live == [] && pCurrent == null
      requires loopDecrement == model.loopDec <= 1
      modifies `bytesCompleted, `bytesInCurrent, `bytesBuffered, `loopCount, `pBuildLoopBegin, `pLoopStart, `model,
               `stray, `strayMark
      ensures Valid() && model == EmptyQueue(old(model).loopDec) && Strays() == {}
    {
      bytesCompleted := 0;
      bytesInCurrent := 0;
      bytesBuffered := 0;
      loopCount := 0;
      pBuildLoopBegin := null;
      pLoopStart := null;
      model := EmptyQueue(model.loopDec);
      stray, strayMark := null, -1;
    }

    /** Header `n` of the model, given back whether played or not. */
    method GiveUp(pwh: WaveHdr, ghost n: nat)
      requires Linked() && model.head <= n < |model.hdrs| && pwh == live[n - model.head]
      modifies `model, pwh`loopStart, pwh`recorded, pwh`done
      ensures Linked() && pwh.next == HeaderAt(n + 1)
      ensures model == old(model).(hdrs := old(model).hdrs[n := Fill(old(model).hdrs[n]).(loopStart := -1)])
    {
      hide Ends;
      At(n);
      pwh.loopStart := null;
      pwh.recorded := |pwh.data|;
      pwh.done := true;
      model := model.(hdrs := model.hdrs[n := Fill(model.hdrs[n]).(loopStart := -1)]);
      forall i: nat | i < |live|
        ensures RepresentAt(live, model.hdrs, model.head, stray, strayMark, i) && LinkAt(live, i)
      {
        assert old(RepresentAt(live, model.hdrs, model.head, stray, strayMark, i));
        assert old(LinkAt(live, i));
      }
    }

    /** The loop of Reset. */
    method MarkAllDone()
      requires Linked() && BuildOk() && Nest(model.hdrs, model.head, model.build)
      modifies live, `model
      ensures Linked() && BuildOk() && Nest(model.hdrs, model.head, model.build)
      ensures model.head == old(model).head && |model.hdrs| == |old(model).hdrs| && model.loopDec == old(model).loopDec
      ensures forall i :: model.head <= i < |model.hdrs| ==> PlayedOut(model.hdrs[i])
    {
      hide Chain, Represent, StrayFits, Nest;
      var pwh := pHead;
      ghost var n, q0 := model.head, model;
      while pwh != null
        invariant model.head <= n <= |model.hdrs| && pwh == HeaderAt(n)
        invariant Linked() && BuildOk()
        invariant model == q0.(hdrs := model.hdrs) && |model.hdrs| == |q0.hdrs|
        invariant forall i :: model.head <= i < n ==> PlayedOut(model.hdrs[i])
        invariant forall i :: 0 <= i < |model.hdrs| ==>
                    model.hdrs[i].begin == q0.hdrs[i].begin
                    && (model.hdrs[i].loopStart == q0.hdrs[i].loopStart || model.hdrs[i].loopStart == -1)
        decreases |model.hdrs| - n
      {
        GiveUp(pwh, n);
        pwh := pwh.next;
        n := n + 1;
      }
      NestCleared(q0.hdrs, model.hdrs, model.head, model.build);
    }

    lemma ValidShape()
      requires Valid()
      ensures Shape(model) && Ready(model) && Walkable(model.hdrs) && model.head <= model.cur <= |model.hdrs|
      ensures model.loopDec <= 1
    {
    }

    /** All queued data has been copied out and played. */
    method IsEmpty() returns (empty: bool)
      requires Valid()
      ensures Valid() && empty == (model.cur == |model.hdrs| && model.buffered <= 0)
    {
      empty := pCurrent == null && bytesBuffered <= 0;
    }

    /** Every header has gone back to the client. */
    method IsDone() returns (done: bool)
      requires Valid()
      ensures Valid() && done == (model.head == |model.hdrs|)
    {
      done := pHead == null;
    }
  }
}
