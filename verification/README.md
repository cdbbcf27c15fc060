# Verified models of the Atom board support package

This project models the stateful core of a Windows CE board support package for Intel Atom
platforms and proves what its drivers and kernel code rely on.  Each component is one or more
modules; the code that works by changing things in place is a class over mutable fields and
arrays, specified by pure functions about which the lemmas are proved.

| component | modules |
|---|---|
| wave header queue of the HD Audio driver | `WaveModel`, `WaveStream`, `WaveWalk`, `WaveCost`, `WavePlay`, `WaveRuns`, `WavePull`, `WaveCases`, `WaveQueue` |
| circular DMA buffer and output stream | `RingModel`, `StreamModel`, `StreamRuns`, `StreamCases`, `OutputStream` |
| codec topology | `TopologyPaths`, `TopologySelectors`, `Topology`, `TopologyCases` |
| command and response rings | `CommandRings` |
| PCI interrupt routing | `IrqModel`, `IrqLaws`, `IrqRuns`, `IrqChains`, `IrqRouter` |
| I2C transfer engine | `I2cController`, `I2cDriver` |
| PCI configuration access | `PciBytes`, `PciConfig` |
| PIRQ to IRQ assignment | `PirqModel`, `PirqLaws`, `PirqRouter` |
| decibel conversion | `Decibels` |

`dafny verify dfyconfig.toml` checks all of it.

## How the outside world enters

- Every method that the source runs under a lock is one atomic step.  The DMA cursor, the time
  since the last interrupt, the codecs' ring pointers, the BIOS's answers and its routing table,
  and the devices' configuration space are parameters, so every theorem holds for all of them.
- Client callbacks of the wave queue are a ghost log in the order they are made.
- The I2C controller is a class of its own.  What the bus does before each access to a register
  is an arbitrary plan: any number of steps, each of which starts the next word, finishes one and
  delivers any byte, or gives up.  As in the DesignWare controller, RX_FULL holds while the receive
  FIFO's level exceeds IC_RX_TL, a stop condition follows a word with the STOP bit or an abort, and
  an abort empties the transmit FIFO.
- Unsigned 32-bit wrap-around is modelled where it shows: in the position counter
  `m_dwBytesCompleted` and in the count of passes.  Other counters stay below the sizes of buffers,
  rings and tables.

## What the proofs show about the code

- **What is queued is what is heard.**  `StreamRuns.EveryRunIsHeard`: in every run of queuing,
  interrupts, pausing, resuming and resetting, the bytes the DMA engine passes over are the queued
  stream, in order, endless loops included, as long as none of the things below happens.
  `StreamRuns.EveryCalmRunIsHeard` puts it in terms of what a client and the hardware do: single
  headers and one-header loops, the engine not past the data, no reading equal to the buffer size,
  and nothing buffered whenever the stream is resumed.
- **Silence is laid after an interrupt, and not at a start.**  `StreamRuns.PassesStreamThenSilence`:
  for the next eighth of the ring the engine passes over what is buffered and then over silence.  A
  start or restart fills the ring from its front and pads nothing (`StreamModel.StreamThenRemains`):
  if there is less than a ring of data, what was in the ring before is played after it until the
  first interrupt.
- **Pausing loses the place.**  Resuming restarts at the front of the ring and refills it, so bytes
  that were buffered when the stream was paused are never played, yet the queue goes on counting
  them.  `StreamModel.RestartInSyncIff`: ring and queue are in step after a restart exactly if
  nothing was buffered, or a whole ring was, nothing is left to copy, and the ring happens to hold
  the bytes due from its start on.  The contracts of `Start` and `Unpause` say so too.  The runs
  `StreamCases.PausedStreamLosesBytes` and `StreamCases.PausedStreamTurnsRing` get out of step that
  way: in the second the counts agree and the bytes come in the wrong order, so that 9 3 is heard of
  9 1 2 3 (`StreamCases.TurnedRingIsHeard`).
- **A DMA reading equal to the buffer size is not a position.**  The driver's assertion admits it,
  but after it a full ring counts as empty.  `RingModel.NextDistanceIff` and
  `StreamModel.InterruptInSync` give the exact condition for every reading, to be checked before the
  interrupt (`StreamModel.Tells`), `RingModel.FullRingCountsAsEmpty` a case.
- **Which call hands a header back.**  `WaveCost.HandsBackIff`, for any loops: a call that counts `n`
  played bytes hands back the header at place `t` exactly if no header up to it begins a loop that
  is endless or has no end yet, and `n`, or what is buffered if that is less, suffices for the sum of
  what the headers up to it cost.  A header that begins a loop costs what is left of it and then, for
  each further pass, the whole of itself and what is left of the others; every other header costs
  what is left of it.
- **A loop of several headers may never be done.**  A header played in part keeps its count, but a
  header in the middle of a loop that is finished while the loop has passes to go is not marked, and
  every call starts again at the loop's first header: bytes played in an earlier pass over the middle
  ones are forgotten.  `WaveCost.LeavesNoneIff` says exactly when a call that is to count all that is
  buffered leaves no header, `WaveCost.StuckIff` exactly when a call makes a queue empty and not
  done, and `WaveRuns.StepStuckIff` which steps of a run do.  In `WaveCases.PairIsStuck` nothing is
  buffered or left to copy and no header has gone back.  A paused stream runs on or has no headers
  exactly if its queue is not so when it is resumed (`OutputStream.OutputStream.Unpause`); with
  single headers and one-header loops it never is (`WaveRuns.SimpleNeverStuck`).
- **Playing may overtake copying.**  `WaveCases.PlayingOvertakes`: with a byte of the loop still to be
  copied, two bytes played hand both headers back, and the driver's own assertion
  (SRC/DRIVERS/ICHHDA/wavhdrq.cpp:363) fails.  `WaveCost.AdvanceKeepsShapeIff` and
  `WaveCost.AdvanceKeepsStreamIff` say exactly when a call does no harm, in terms of the queue before
  it.  Let the mark be the header being copied, or the first one of the loop being copied: a loop that
  is endless or still open must begin at or before the mark, or the bytes to be counted must be fewer
  than it costs to play out everything up to the mark; and they must not reach the end of a pass over
  a loop that is next to be copied.
- **A loop copied out before it is queued whole is cut short.**  `WaveStream.AddKeepsStreamIff`: a
  header may be queued exactly if it does not go into a loop that copying has been round already;
  `WaveCases.LateHeaderIsNotRepeated` is a case in which 1 1 2 is handed out for 1 2 1 2.
- **AddBuffer may write through a null tail.**  A BEGINLOOP header that arrives while a loop is open
  ends that loop through `m_pTail`.  `WaveRuns.TailLostIff`: in every run the pointer is then null
  exactly if the last header queued left a loop open and is back with the client; by
  `WaveRuns.OnlyOnePassIsLost` the open loop is then one of a single pass.  `WaveCases.TailIsLost` is
  such a run, and `WaveQueue.WavehdrQueue.AddBuffer` returns `Faulted` for it.
- **A full routing pool forgets.**  `IrqModel.FreshRecordedIff`: a freshly mapped IRQ is recorded
  exactly if a pool slot is left; otherwise the caller gets an IRQ whose chain stays empty.  Requests
  alone cannot get there with the 32 rows the kernel keeps (`IrqModel.PoolNeverRunsOut`), but
  PCIConfigureIrq can: `IrqRuns.DoLoads` says exactly which steps use the pool up, `IrqRuns.PoolLasts`
  how long it lasts, and `IrqRuns.PoolUsedUp` empties it with two devices that take turns.  A third
  device is then granted IRQ 7, which is recorded nowhere (`IrqRuns.GrantIsForgotten`).
- **Configuring an unrouted device can drop others.**  `PCIConfigureIrq` overwrites the head of the
  target chain; `IrqModel.ConfigureConservesIff` says exactly when no device is lost,
  `IrqRuns.ConfigureForgets` is a case.
- **A line can be given IRQ 0.**  When a line must share, the list of candidates has zeros at slots
  whose IRQ the line cannot use, and a zero matches the slot not used yet.
  `PirqModel.GivenToLine` and `PirqModel.ZeroIffUnusableBefore` give the exact condition,
  `PirqModel.ThirdLineGetsZero` a case.
- **The receive FIFO is never read empty.**  The branch that aborts a transfer on RX_UNDER is dead;
  in `I2cDriver.Transfer.Interrupt` it is an assertion that it cannot be reached.
- **A transfer comes to its end.**  `I2cDriver.Transfer.NeverStuck`: whenever the bus has nothing to
  do, a condition that the transfer waits for holds.  By `I2cDriver.Execute` a request of `n` bytes,
  `n > 0`, has succeeded after `3n + 1` interrupts on any bus that takes a step before each access and
  does not give up; one of no bytes is never answered on such a bus, and its caller waits for ever.
- **Success of a write is early.**  `TRANSFER_SUCCESS` is reported once every byte is queued, and by
  the contract of `I2cDriver.Transfer.Interrupt` nothing changes the result afterwards.
  `I2cDriver.QueuedOnly` is a write reported as a success with its byte still in the FIFO, and in
  `I2cDriver.SuccessIsEarly` the bus then gives up.
- **A widget shared by playback and recording keeps the playback selection.**
  `Topology.DevInfo.BuildTopology`: from a recording widget the selected connections lead to an input
  pin exactly if they meet no widget whose connection the playback pass selected
  (`Topology.ReachesPinIff`); otherwise they end at an output converter.  In
  `TopologyCases.RecordsNothing` a selector between the microphone and the input converter is such a
  widget.
- **A selector may be missed for recording.**  The search that marks the widgets with a choice of
  inputs goes on from each such widget only the first time it comes to it, and no further than 10
  connections.  `TopologySelectors.FirstWays` says exactly which widgets that are, and
  `TopologySelectors.FirstWaysUnique` that the graph alone decides it; where no way without
  repetitions is longer, as in any graph of 11 nodes, all widgets behind an input converter that
  records are found (`TopologySelectors.ShallowComes`).  In `TopologyCases.LosesSelector` a selector
  two connections from the input converter is not: its neighbour is first reached by a detour of 10.

## Model

| member | source | states |
|---|---|---|
| WaveModel.AddKeepsShape | SRC/DRIVERS/ICHHDA/wavhdrq.cpp:145-203 | queuing a header keeps the list's loop marks, its cursors and its counters consistent, whatever loops are queued |
| WaveModel.NextKeepsShape | SRC/DRIVERS/ICHHDA/wavhdrq.cpp:205-256 | so does pulling a block, in and out of loops |
| WaveStream.NextPulls | SRC/DRIVERS/ICHHDA/wavhdrq.cpp:205-256 | a block handed out is exactly what the stream handed out so far grows by, across ends of headers, passes of loops and ends of loops, for every loop, endless or finite, ended or still open |
| WaveStream.AddKeepsStreamIff | SRC/DRIVERS/ICHHDA/wavhdrq.cpp:145-203 | queuing leaves what was handed out the stream queued so far exactly if the header goes into no loop that copying has been round already |
| WaveCases.LateHeaderIsNotRepeated | SRC/DRIVERS/ICHHDA/wavhdrq.cpp:205-256 | a run in which it does, and 1 1 2 is handed out for 1 2 1 2 |
| WaveStream.PulledIsPrefix | SRC/DRIVERS/ICHHDA/wavhdrq.cpp:205-256 | what was handed out is a prefix of the headers' data in queue order with each loop repeated dwLoops times, an endless one as often as need be, and all of it once nothing is left |
| WaveRuns.EveryRunHandsOutTheStream | SRC/DRIVERS/ICHHDA/wavhdrq.cpp:121-256 | in every run of queuing, pulling, playing and resetting, with any loops, as long as no header was queued too late for its loop and playing has counted down no loop yet to be copied, the blocks handed out add up to a prefix of the queued stream, and to all of it when nothing is left |
| WaveRuns.EveryRunAccounts | SRC/DRIVERS/ICHHDA/wavhdrq.cpp:121-389 | in every run in which playing stays behind copying, whatever loops are queued, completed plus buffered bytes are the bytes handed out, m_dwBytesCompleted modulo 2^32 |
| WaveRuns.EveryRunConservesAndCallsBack | SRC/DRIVERS/ICHHDA/wavhdrq.cpp:121-389 | in every run over single headers and one-header loops a header has been called back exactly when it and all before it were played in full with all passes, the queue is empty exactly when it is done, and playing never gets ahead of copying |
| WaveRuns.TailLostIff | SRC/DRIVERS/ICHHDA/wavhdrq.cpp:154-160 | in every run AddBuffer meets a null tail exactly if a loop is begun after the last header queued left one open and went back to the client |
| WaveRuns.OnlyOnePassIsLost | SRC/DRIVERS/ICHHDA/wavhdrq.cpp:154-160 | and then the open loop has a single pass and all its headers are played out |
| WaveCases.TailIsLost | SRC/DRIVERS/ICHHDA/wavhdrq.cpp:154-160 | a run that gets there |
| WaveWalk.AdvanceKeepsReady | SRC/DRIVERS/ICHHDA/wavhdrq.cpp:270-389 | a call plays whole headers in queue order through any loops, keeps every loop's count in range, leaves the copying side alone and never counts more bytes than asked |
| WaveCost.HandsBackIff | SRC/DRIVERS/ICHHDA/wavhdrq.cpp:270-389 | for any loops a call hands a header back exactly if no header up to it begins a loop that is endless or still open, and the bytes to be counted suffice to play out all of them with all passes to go, each pass after the present one repeating what is left of the loop |
| WaveCost.KeepsCountIff | SRC/DRIVERS/ICHHDA/wavhdrq.cpp:311-350 | a call leaves the count of passes of a header it does not hand back as it was exactly if the header begins no finite loop of several passes, or the bytes to be counted do not come to the end of the present one |
| WaveCost.AdvanceKeepsShapeIff | SRC/DRIVERS/ICHHDA/wavhdrq.cpp:270-389 | a call keeps the queue's structure exactly if the bytes to be counted do not suffice to play out everything up to the header being copied, or up to the first one of the loop being copied, or a loop that is endless or still open begins there or before |
| WaveCost.AdvanceKeepsStreamIff | SRC/DRIVERS/ICHHDA/wavhdrq.cpp:270-389 | what was and will be handed out stays the queued stream exactly if, besides, they do not come to the end of a pass over the loop that is next to be copied; then the bytes handed out are the same |
| WaveCost.CountsAllIff | SRC/DRIVERS/ICHHDA/wavhdrq.cpp:270-357 | a call counts all it is asked to exactly if no open loop with passes to go ends the walk before |
| WaveCost.LeavesNoneIff | SRC/DRIVERS/ICHHDA/wavhdrq.cpp:427-437 | a call that is to count all that is buffered leaves no header exactly if no loop is endless or open and what is buffered plays every header out, all passes made |
| WaveCost.StuckIff | SRC/DRIVERS/ICHHDA/wavhdrq.cpp:427-437 | after a call IsEmpty holds and IsDone does not exactly if so before, or if with nothing left to copy the last bytes buffered are counted and do not play every header out |
| WaveCases.PlayingOvertakes | SRC/DRIVERS/ICHHDA/wavhdrq.cpp:359-363 | a run in which the next call hands back the header being copied |
| WaveCases.PairIsStuck | SRC/DRIVERS/ICHHDA/wavhdrq.cpp:427-437 | a run that ends empty but not done |
| WaveRuns.StepStuckIff | SRC/DRIVERS/ICHHDA/wavhdrq.cpp:121-389 | exactly which steps of any run leave the queue empty but not done: pulls never, playing as StuckIff says, queuing and resetting undo it |
| WaveRuns.SimpleNeverStuck | SRC/DRIVERS/ICHHDA/wavhdrq.cpp:427-437 | in runs over single headers and one-header loops it never is |
| WaveRuns.SimpleStaysBehind | SRC/DRIVERS/ICHHDA/wavhdrq.cpp:270-389 | with single headers and one-header loops none of this can happen |
| WavePlay.AdvancePlays | SRC/DRIVERS/ICHHDA/wavhdrq.cpp:270-389 | with such headers advancing by n plays the smaller of n and the buffered bytes and keeps the accounting of every header |
| WavePlay.BytesConserved | SRC/DRIVERS/ICHHDA/wavhdrq.cpp:270-357 | played plus buffered is handed out, and m_dwBytesCompleted is the played part modulo 2^32 |
| WavePlay.CallbackExactlyWhenPlayed | SRC/DRIVERS/ICHHDA/wavhdrq.cpp:359-389 | a header is off the list exactly when the played bytes cover it and all before it, all passes counted |
| WavePlay.EmptyIsDone | SRC/DRIVERS/ICHHDA/wavhdrq.cpp:427-437 | nothing left to hand out and nothing buffered, if and only if no header is left |
| WavePlay.CompletedIsNotCurrent | SRC/DRIVERS/ICHHDA/wavhdrq.cpp:301-357 | an unlooped header that completes is never the one being copied out, as the driver asserts |
| WaveQueue.WavehdrQueue.AddBuffer | SRC/DRIVERS/ICHHDA/wavhdrq.cpp:145-203 | refuses a header that is queued already, faults exactly when the tail it needs is null, and otherwise links the header at the tail with the loop marks of the model |
| WaveQueue.WavehdrQueue.GetNextBlock | SRC/DRIVERS/ICHHDA/wavhdrq.cpp:205-256 | hands out the next block of at most n bytes; false exactly when nothing is left |
| WaveQueue.WavehdrQueue.AdvanceCurrentPosition | SRC/DRIVERS/ICHHDA/wavhdrq.cpp:270-389 | for any loops walks and updates the linked headers in place, unlinks the completed ones and calls them back in queue order, once each, off the queue, done and with all their bytes counted |
| WaveQueue.WavehdrQueue.Reset | SRC/DRIVERS/ICHHDA/wavhdrq.cpp:121-143 | calls back every header still queued, in order, done and with all its bytes counted, and leaves the empty queue |
| WavePull.PullSplits | SRC/DRIVERS/ICHHDA/strmctxt.cpp:749-769 | one pull of a+b bytes is a pull of a and then one of b, also when the first runs dry |
| WavePull.PullManyPulls | SRC/DRIVERS/ICHHDA/strmctxt.cpp:686-718 | for any loops repeated pulls hand out the next bytes of the stream, and all that is left of it if they fall short |
| WavePull.FallsShortIff | SRC/DRIVERS/ICHHDA/strmctxt.cpp:686-718 | and they fall short exactly if the stream has fewer bytes left |
| RingModel.RoomIsComplement | SRC/DRIVERS/ICHHDA/strmctxt.cpp:816-866 | without underflow room and distance ahead of the DMA cursor make up the buffer, for every reading the driver's assertion admits |
| RingModel.RoomIsDisjoint | SRC/DRIVERS/ICHHDA/strmctxt.cpp:816-897 | no position of the room is one the DMA engine has yet to play |
| RingModel.PaddingFits | SRC/DRIVERS/ICHHDA/strmctxt.cpp:866-897 | an eighth of the buffer of silence fits the room, and its two pieces lie in the buffer and sum to it |
| RingModel.NextDistanceIff | SRC/DRIVERS/ICHHDA/strmctxt.cpp:816-866 | exactly when the next reading takes the right number of bytes for those still ahead |
| RingModel.FullRingCountsAsEmpty | SRC/DRIVERS/ICHHDA/strmctxt.cpp:816-866 | a reading equal to the buffer size after which it does not |
| StreamModel.DistanceIsBuffered | SRC/DRIVERS/ICHHDA/strmctxt.cpp:816-866 | in a synchronised stream the cursors' distance is the queue's count of buffered bytes |
| StreamModel.EnginePlaysTheStream | SRC/DRIVERS/ICHHDA/strmctxt.cpp:961-986 | every byte between the cursors is the stream's byte due at that position: what the engine plays next is what was queued next |
| StreamModel.InterruptInSync | SRC/DRIVERS/ICHHDA/strmctxt.cpp:961-986 | one interrupt that can count what was played keeps ring and queue in step, silence and refill included, exactly if less is counted than is buffered or something is left to copy, and the reading is a position or the stream has fewer bytes left than there is room |
| StreamModel.PlainInterrupt | SRC/DRIVERS/ICHHDA/strmctxt.cpp:961-986 | with single headers and one-header loops what was played can always be counted, and a stream that runs on has something buffered or left to copy |
| StreamModel.StreamThenSilence | SRC/DRIVERS/ICHHDA/strmctxt.cpp:961-986 | after an interrupt of a stream in step, each of the bytes for an eighth of the ring from the reading on, and after an underflow all round, is the one due there if something is buffered for it, and silence otherwise |
| StreamRuns.PassesStreamThenSilence | SRC/DRIVERS/ICHHDA/strmctxt.cpp:866-882 | so up to a reading at most an eighth of the ring further the engine passes over what is buffered, in order, and then over silence |
| StreamModel.RestartInSyncIff | SRC/DRIVERS/ICHHDA/strmctxt.cpp:781-813 | ring and queue are in step after a restart exactly if nothing was buffered, or a full ring lying right with nothing to follow |
| StreamModel.RestartInStep | SRC/DRIVERS/ICHHDA/strmctxt.cpp:781-813 | so for the whole stream; what was handed out only grows, and as many of its bytes as before are counted as played |
| StreamModel.StreamThenRemains | SRC/DRIVERS/ICHHDA/strmctxt.cpp:781-813 | after a restart with nothing buffered the ring has the next bytes of the stream from its front on, and after them what it had before |
| StreamRuns.EveryRunIsHeard | SRC/DRIVERS/ICHHDA/strmctxt.cpp:172-270 | in every run, with any loops, whose readings can be counted and tell what is buffered, without headers too late for their loop or restarts that lose the place, the bytes the DMA engine passes over are a prefix of the queued stream, and all of it once nothing is buffered or left to copy; while the engine runs, ring and queue are in step |
| StreamRuns.EveryCalmRunIsHeard | SRC/DRIVERS/ICHHDA/strmctxt.cpp:961-986 | with single headers and one-header loops that holds if no reading finds the engine past the data or equals the buffer size, and the stream is resumed with nothing buffered; all is heard once every header is back, and until then the stream runs or is paused |
| StreamCases.PausedStreamLosesBytes | SRC/DRIVERS/ICHHDA/strmctxt.cpp:210-226 | a run with a pause in which 4 is heard first of 1 2 3 4 5 6 |
| StreamCases.PausedStreamTurnsRing | SRC/DRIVERS/ICHHDA/strmctxt.cpp:210-226 | a run in step that pausing and resuming puts out of step, the counts agreeing and the bytes lying in the wrong order |
| StreamCases.TurnedRingIsHeard | SRC/DRIVERS/ICHHDA/strmctxt.cpp:210-226 | and 9 3 is heard of 9 1 2 3 |
| OutputStream.OutputStream.DoSplitTransfer | SRC/DRIVERS/ICHHDA/strmctxt.cpp:686-769 | one ring write: the next bytes of the stream go to the positions from the cursor on modulo the size, all others are unchanged, the cursor moves by as many |
| OutputStream.OutputStream.GetAdvance | SRC/DRIVERS/ICHHDA/strmctxt.cpp:816-897 | when late, or when the engine has passed the transfer cursor: all that was ahead is counted, the whole ring is room from the reading on, and every byte is silence; otherwise the way moved is counted, the rest of the ring is room, and with no more than an eighth ahead just the next eighth from the transfer cursor on is silence |
| OutputStream.OutputStream.HandleInterrupt | SRC/DRIVERS/ICHHDA/strmctxt.cpp:961-986 | makes of ring, cursors and queue what the interrupt of StreamModel does, in place, and hands headers back in order; runs on exactly if headers are left; in step afterwards exactly as InterruptInSync says, by the state before; with single headers and one-header loops for any reading below the size |
| OutputStream.OutputStream.AddBuffer | SRC/DRIVERS/ICHHDA/strmctxt.cpp:172-208 | queues, refuses or faults like the queue; afterwards a stream that is not paused and has headers runs, in step exactly if it was and the interrupt keeps it so, by the state before, or, if it was stopped, exactly if nothing was buffered |
| OutputStream.OutputStream.Pause | SRC/DRIVERS/ICHHDA/strmctxt.cpp:228-239 | the stream is paused and stopped, ring, cursors and queue as before |
| OutputStream.OutputStream.Start | SRC/DRIVERS/ICHHDA/strmctxt.cpp:781-813 | fills the ring from its front, in step exactly if the place is kept |
| OutputStream.OutputStream.Unpause | SRC/DRIVERS/ICHHDA/strmctxt.cpp:210-226 | a paused stream runs on or has no headers exactly if its queue was not empty with headers left, and is in step exactly if the place is kept, both by the state before |
| OutputStream.OutputStream.Reset | SRC/DRIVERS/ICHHDA/strmctxt.cpp:241-270 | all headers go back in order, the stream is stopped and not paused |
| TopologyPaths.ReachIffPath | SRC/DRIVERS/ICHHDA/schda.cpp:2122-2155 | the depth-bounded search condition is the existence of a path of at most that many connections through enabled mixers and selectors to a converter |
| TopologyPaths.OnPathIffPath | SRC/DRIVERS/ICHHDA/schda.cpp:2122-2155 | a widget is to be marked exactly if it lies on such a path |
| Topology.DevInfo.FindDacPath | SRC/DRIVERS/ICHHDA/schda.cpp:2122-2155 | nonzero exactly if such a path exists, marks exactly the widgets on one, terminates on cyclic graphs |
| Topology.DevInfo.FindAdcPath | SRC/DRIVERS/ICHHDA/schda.cpp:2158-2202 | the same for recording paths; selections made before are kept, and a widget that is found leads on to an input pin or to a widget with a connection selected |
| Topology.DevInfo.EnumDacPath | SRC/DRIVERS/ICHHDA/schda.cpp:2079-2118 | marks exactly the output pins that play and what lies between them and a converter; returns how many pairs of pin and connection play |
| Topology.PlayedIff | SRC/DRIVERS/ICHHDA/schda.cpp:2079-2155 | those are the pins for line, speaker or headphones from which at most 11 connections lead through mixers and selectors, at least one, to an output converter, and the widgets on such a path |
| Topology.RecordedIff | SRC/DRIVERS/ICHHDA/schda.cpp:2158-2202 | marked for recording are the widgets on the paths of at most 10 connections from an input converter through mixers, selectors and input converters to an input pin |
| Topology.DevInfo.BuildRecSelector | SRC/DRIVERS/ICHHDA/schda.cpp:2205-2227 | of the ways that go on from the one tried, all that come to a widget with several connections are taken care of: it is marked, and the way kept for it is the first |
| Topology.DevInfo.BuildTopology | SRC/DRIVERS/ICHHDA/schda.cpp:2046-2077 | after all passes the marks are exactly right; selected connections are each the first that leads on; they lead every playback widget to a converter, and every recording widget to an input pin exactly if they meet no widget selected for playback; marked as selectors for recording are exactly the widgets with several connections that the search comes to |
| Topology.SelectedFollows | SRC/DRIVERS/ICHHDA/schda.cpp:2122-2202 | in either pass selections lead to a leaf, or to a widget selected in an earlier pass, in as many steps as selections were made before |
| Topology.MarkedFollows | SRC/DRIVERS/ICHHDA/schda.cpp:2079-2202 | following iCurrConnIdx from any enabled widget with the pass's mark gets there in finitely many steps, cyclic graphs included |
| Topology.ReachesPinIff | SRC/DRIVERS/ICHHDA/schda.cpp:2158-2202 | from a recording widget the selections come to an input pin exactly if they meet no widget selected for playback |
| TopologyCases.RecordsNothing | SRC/DRIVERS/ICHHDA/schda.cpp:2158-2202 | a graph with a shared selector in which they never do, however far they are followed |
| TopologySelectors.ComesToLed | SRC/DRIVERS/ICHHDA/schda.cpp:2205-2227 | every selector found has several connections and lies at most 10 connections of enabled widgets other than pins behind an input converter that records; where no such way without repetitions takes more than 10, every widget like that behind one is found |
| TopologySelectors.FirstWaysUnique | SRC/DRIVERS/ICHHDA/schda.cpp:2205-2227 | the graph and the input converters decide which widgets the search comes to, and by which way first |
| TopologySelectors.SmallIsShallow | SRC/DRIVERS/ICHHDA/schda.cpp:2205-2227 | in a graph of at most 11 nodes no way without repetitions takes more than 10 connections |
| TopologyCases.LosesSelector | SRC/DRIVERS/ICHHDA/schda.cpp:2205-2227 | a graph in which a selector two connections from the input converter is not marked |
| Topology.ChosenPasses | SRC/DRIVERS/ICHHDA/schda.cpp:2138-2148 | selecting a connection that leads on, where none is selected, keeps that for every widget |
| CommandRings.RangeIs | SRC/DRIVERS/ICHHDA/schda.cpp:1625-1629 | each ring entry after the old read pointer up to the new one is taken once, in ring order |
| CommandRings.ResponsesInOrder | SRC/DRIVERS/ICHHDA/schda.cpp:1642-1646 | a waiting codec gets its own solicited responses in order, up to the number it waits for and no more; nothing else reaches it |
| CommandRings.SolicitedAre | SRC/DRIVERS/ICHHDA/schda.cpp:1642-1646 | those are the responses of the entries with its address that are not unsolicited, in the order they came |
| CommandRings.FieldsAre | SRC/DRIVERS/ICHHDA/schda.cpp:1630-1640 | the low four bits of the extension word are the address and the next one says unsolicited; the word queued has the address above the top six bits of the response |
| CommandRings.CountedAre | SRC/DRIVERS/ICHHDA/schda.cpp:1630-1647 | the entries counted are those of codecs that are there |
| CommandRings.WordsAre | SRC/DRIVERS/ICHHDA/schda.cpp:1638-1641 | the words queued are those of the unsolicited entries of such codecs, in the order they came |
| CommandRings.QueuedIs | SRC/DRIVERS/ICHHDA/schda.cpp:1638-1641 | each slot of the unsolicited queue has the last word that came to it, and is otherwise as before |
| CommandRings.HdaCore.FlushRirb | SRC/DRIVERS/ICHHDA/schda.cpp:1610-1651 | the read pointer ends at the hardware's write pointer and every entry is handled once, in ring order, into response lists, unsolicited queue and count |
| CommandRings.HdaCore.PushVerbs | SRC/DRIVERS/ICHHDA/schda.cpp:1562-1578 | as many verbs as fit go to the ring in order, never onto the slot the hardware reads; other slots are unchanged |
| IrqModel.ScanFindsTheConfigured | SRC/COMMON/PDQOAL/IO/route.c:383-522 | after the scan each IRQ's chain holds exactly the functions configured to raise it, each once |
| IrqLaws.ScanIs | SRC/COMMON/PDQOAL/IO/route.c:383-522 | those are the functions of device, bridge and CardBus headers that name the IRQ and a pin with a link, functions beyond the first only of devices that have several |
| IrqModel.PoolNeverRunsOut | SRC/COMMON/PDQOAL/IO/route.c:159-234 | after a scan of at most 32 rows, requests alone always leave a pool slot for each empty chain |
| IrqRuns.DoLoads | SRC/COMMON/PDQOAL/IO/route.c:658-1022 | slots taken plus empty chains rise by one exactly when PCIConfigureIrq puts a device on an IRQ that has devices, and otherwise stay the same |
| IrqRuns.RunLoads | SRC/COMMON/PDQOAL/IO/route.c:658-1022 | so over any run of requests and configurations |
| IrqRuns.PoolLasts | SRC/COMMON/PDQOAL/IO/route.c:159-234 | the pool lasts through any requests and 223 such configurations |
| IrqRuns.PoolUsedUp | SRC/COMMON/PDQOAL/IO/route.c:849-1022 | two devices that take turns on one IRQ use it up |
| IrqRuns.GrantIsForgotten | SRC/COMMON/PDQOAL/IO/route.c:242-267 | a third device is then granted an IRQ whose chain stays empty |
| IrqLaws.GrantedIs | SRC/COMMON/PDQOAL/IO/route.c:658-825 | a request is granted the lowest IRQ with its full entry, else the lowest with its link, else the highest exclusive PCI IRQ with no entries that the BIOS accepts, else the highest such IRQ of the bitmap of its pin in the first row for the device; it is refused without a link or if there is none |
| IrqLaws.ExclusiveComesFirst | SRC/COMMON/PDQOAL/IO/route.c:763-815 | a case in which an exclusive IRQ is granted before a higher possible one |
| IrqModel.RequestGrows | SRC/COMMON/PDQOAL/IO/route.c:658-825 | a request changes no chain with entries, puts at most one entry on an empty one, with a link that was nowhere, and what it grants is then recorded |
| IrqModel.SameRequestSameIrq | SRC/COMMON/PDQOAL/IO/route.c:658-825 | once granted, the same request is granted the same IRQ at any later point of any run, whatever the BIOS answers |
| IrqModel.SameLinkSameIrq | SRC/COMMON/PDQOAL/IO/route.c:721-815 | if each link was on one IRQ at most it stays so, and all requests for a link get the same IRQ |
| IrqModel.FreshIsExclusive | SRC/COMMON/PDQOAL/IO/route.c:763-815 | a freshly mapped IRQ had no entries and carries only its link ever after |
| IrqModel.FreshRecordedIff | SRC/COMMON/PDQOAL/IO/route.c:242-267 | a fresh mapping is recorded exactly if a pool slot is left |
| IrqModel.Pick | SRC/COMMON/PDQOAL/IO/route.c:763-812 | the IRQ mapped is the highest in the bitmap with no entries that the BIOS accepts |
| IrqLaws.ConfigureMoves | SRC/COMMON/PDQOAL/IO/route.c:849-1022 | when a routed device is put on another IRQ, exactly if the BIOS takes it, the table names a link and the others on its IRQ may go with it, all of them come in order after those already there, each with the new link; its old IRQ is empty and all others are as before |
| IrqLaws.ConfigurePuts | SRC/COMMON/PDQOAL/IO/route.c:849-1022 | a device with no IRQ is then alone on it, or with the pool used up nobody is |
| IrqLaws.ConfiguredIsGranted | SRC/COMMON/PDQOAL/IO/route.c:721-742 | after either the device, asking for the same pin, is granted that IRQ exactly if no lower one has its entry |
| IrqModel.MoveConserves | SRC/COMMON/PDQOAL/IO/route.c:980-1002 | moving a chain keeps the multiset of (bus, device, function) |
| IrqModel.ConfigureConservesIff | SRC/COMMON/PDQOAL/IO/route.c:849-1022 | configuring a routed device loses and invents none; configuring an unrouted one keeps all exactly if the target had no entries |
| IrqRuns.ConfigureForgets | SRC/COMMON/PDQOAL/IO/route.c:849-1022 | a case in which it does not |
| IrqChains.LinkedAppends | SRC/COMMON/PDQOAL/IO/route.c:219-267 | linking a new pool slot at a chain's end appends its entry, and the chains stay acyclic, disjoint and of distinct slots |
| IrqChains.RehungJoins | SRC/COMMON/PDQOAL/IO/route.c:982-996 | hanging a chain behind another one joins their entries and keeps all chains so |
| IrqRouter.Router.AddIrqLink | SRC/COMMON/PDQOAL/IO/route.c:219-267 | appends the entry in memory, or reports that the pool is used up |
| IrqRouter.Router.ScanConfiguredIrq | SRC/COMMON/PDQOAL/IO/route.c:383-522 | the pointer chains after the scan mean what the model's scan says |
| IrqRouter.Router.RequestIrqs | SRC/COMMON/PDQOAL/IO/route.c:658-825 | the answer is the one GrantedIs describes, and the chains afterwards are those of the model's request |
| IrqRouter.Router.ConfigureIrq | SRC/COMMON/PDQOAL/IO/route.c:849-1022 | the same for moving a device, relabelling only what moved |
| I2cDriver.ReadWordMeans | SRC/DRIVERS/I2C/i2c.c:757-776 | a read word has the read bit, RESTART exactly if first, STOP exactly if last |
| I2cDriver.WriteWordMeans | SRC/DRIVERS/I2C/i2c.c:926-947 | a write word carries its byte, no read bit, RESTART exactly if first, STOP exactly if last |
| I2cDriver.StopMeansAll | SRC/DRIVERS/I2C/i2c.c:395-409 | a finished word with STOP means that all words of the read are asked for and finished |
| I2cDriver.Transfer.SuccessMeansAll | SRC/DRIVERS/I2C/i2c.c:374-409 | a read that succeeded has all bytes in order for exactly N read words, a write that succeeded has queued all N, and no FIFO ever overflowed or was read empty |
| I2cDriver.Transfer.PrepareForRead | SRC/DRIVERS/I2C/i2c.c:728-799 | asks for the lesser of the bytes left and 255, in order, and keeps at most 255 unanswered |
| I2cDriver.Transfer.TransferDataRead | SRC/DRIVERS/I2C/i2c.c:808-833 | appends at least what the receive FIFO holds to the buffer, in order; everything asked for once it has all come |
| I2cDriver.Transfer.TransferDataWrite | SRC/DRIVERS/I2C/i2c.c:901-961 | queues the next bytes in order, never beyond the FIFO |
| I2cDriver.Transfer.Told | SRC/DRIVERS/I2C/i2c.c:363-413 | a read is told of a stop only when all of it has come, and of RX_FULL only when all asked for has; the receive FIFO never reads empty |
| I2cDriver.Transfer.NeverStuck | SRC/DRIVERS/I2C/i2c.c:728-799 | when the bus has nothing to do, a condition the transfer waits for holds, so a transfer of at least one byte is never left waiting |
| I2cDriver.Transfer.Interrupt | SRC/DRIVERS/I2C/i2c.c:338-445 | what one interrupt does, by the conditions awaited that hold before it: a bus that gave up is reported as such; bytes that have all come are taken and the lesser of 255 and what is left is asked for; the stop of a read ends it with success; an empty transmit FIFO is filled with as much as is left, and when nothing is the write is a success; without any nothing changes; nothing changes a result already reported; a bus that goes on brings the transfer nearer to its end |
| I2cDriver.QueuedOnly | SRC/DRIVERS/I2C/i2c.c:363-413 | a write is reported as a success with its byte still in the transmit FIFO |
| I2cDriver.SuccessIsEarly | SRC/DRIVERS/I2C/i2c.c:363-413 | the bus may give up after that, and the result stays a success |
| I2cDriver.Execute | SRC/DRIVERS/I2C/i2c.c:990-1017 | for a whole request under any interleaving of driver and bus: what a success means, that anything else reported is that the bus gave up, that n > 0 bytes have succeeded after 3n + 1 interrupts on any bus that goes on, and that none are never answered |
| I2cDriver.LongRead | SRC/DRIVERS/I2C/i2c.c:414-433 | a read of 300 bytes, asked for in two parts, succeeds on any such bus |
| I2cController.Controller.Run | SRC/DRIVERS/I2C/i2c.h:427-428 | what the bus may do between two register accesses, FIFO depth 256 |
| PciBytes.SetByteSets | SRC/COMMON/PDQOAL/IO/pci.c:181-183 | masking and or-ing in one byte leaves the other three |
| PciConfig.AddressNames | SRC/COMMON/PDQOAL/IO/pci.c:153-161 | the latch word decodes to the enable bit, function and register it was built from |
| PciConfig.WrittenAt | SRC/COMMON/PDQOAL/IO/pci.c:130-251 | a write changes exactly the bytes it names |
| PciConfig.ReadBack | SRC/COMMON/PDQOAL/IO/pci.c:130-251 | what was written is read back |
| PciConfig.StoredIs | SRC/COMMON/PDQOAL/IO/pci.c:160-249 | byte stores into registers refine byte stores into a 256-byte array |
| PciConfig.SetAll | SRC/COMMON/PDQOAL/IO/pci.c:201-216 | four byte stores are one register write |
| PciConfig.HeadBytes | SRC/COMMON/PDQOAL/IO/pci.c:160-199 | the bytes up to the first register boundary, neighbours in the register kept |
| PciConfig.TailBytes | SRC/COMMON/PDQOAL/IO/pci.c:218-249 | the bytes left over at the end, neighbours kept |
| PciConfig.Type1Configuration | SRC/COMMON/PDQOAL/IO/pci.c:130-251 | for every offset, length and alignment a read returns and a write changes exactly the named bytes of the named function; the result is the length |
| PirqModel.PassingReorders | SRC/COMMON/PDQOAL/IO/uefiroute.c:1105-1114 | one insertion keeps the order of lines with equally many IRQs |
| PirqModel.ReorderedKeepsAll | SRC/COMMON/PDQOAL/IO/uefiroute.c:1105-1114 | a stable reordering is a permutation |
| PirqLaws.AllowedIs | SRC/COMMON/PDQOAL/IO/uefiroute.c:1126-1140 | a line can have the IRQs of its bitmap but 0 to 2, 4 and 12 |
| PirqLaws.StepServes | SRC/COMMON/PDQOAL/IO/uefiroute.c:1126-1225 | a line gets the highest IRQ it can have that nobody has; with none left it shares the first place that the fewest lines have, up to the slot with the lowest IRQ it can have, a slot it cannot have standing for the next empty one; the tables change there and nowhere else |
| PirqModel.GivenToLine | SRC/COMMON/PDQOAL/IO/uefiroute.c:1126-1225 | a line gets the highest IRQ it can use that nobody has; it shares only when all it can use are taken; exactly when the shared one is IRQ 0 |
| PirqModel.ZeroIffUnusableBefore | SRC/COMMON/PDQOAL/IO/uefiroute.c:1179-1224 | while the next slot was never shared out, IRQ 0 results exactly if an unusable IRQ was given out before the lowest usable one |
| PirqModel.ThirdLineGetsZero | SRC/COMMON/PDQOAL/IO/uefiroute.c:1179-1224 | a case of it with three lines |
| PirqModel.OwnIrqsDiffer | SRC/COMMON/PDQOAL/IO/uefiroute.c:1145-1178 | no two lines are given the same IRQ as their own |
| PirqModel.GivenStays | SRC/COMMON/PDQOAL/IO/uefiroute.c:1126-1225 | later lines do not change what a line was given |
| PirqRouter.SortLines | SRC/COMMON/PDQOAL/IO/uefiroute.c:1105-1114 | the in-place insertion sort is ascending and stable |
| PirqRouter.PirqTables.AssignLine | SRC/COMMON/PDQOAL/IO/uefiroute.c:1126-1225 | one line's turn changes the tables as the model's step says |
| PirqRouter.PirqTables.AssignIrqs | SRC/COMMON/PDQOAL/IO/uefiroute.c:1084-1226 | all eight lines are served in a stable ascending order |
| Decibels.AmpFactorToDB | SRC/DRIVERS/ICHHDA/decibels.cpp:1133-1193 | the binary search finds the first table entry that reaches the factor |
| Decibels.AmpFactorToDBScan | SRC/DRIVERS/ICHHDA/decibels.cpp:1156-1162 | so does the linear scan beside it |
| Decibels.RoundTripIsLeast | SRC/DRIVERS/ICHHDA/decibels.cpp:1091-1193 | to decibels and back gives the least table value not below the factor |
| Decibels.SecondRoundTrip | SRC/DRIVERS/ICHHDA/decibels.cpp:1091-1193 | a second round trip changes nothing |
| Decibels.Reached | SRC/DRIVERS/ICHHDA/decibels.cpp:1091-1193 | a factor is reached at a level exactly when its own decibels do not exceed the level's tenths |
| Decibels.Monotone | SRC/DRIVERS/ICHHDA/decibels.cpp:1091-1131 | more decibels never give a smaller factor |
| Decibels.NearestTenth | SRC/DRIVERS/ICHHDA/decibels.cpp:1109-1131 | a level has the factor of the nearest tenth of a decibel, the lower of two as near |
| Decibels.BelowTheTable | SRC/DRIVERS/ICHHDA/decibels.cpp:1109-1131 | and none below the table |

## Left out

- WaveRuns.EveryRunConservesAndCallsBack: that a header goes back exactly when it has been played in full is claimed for single headers and one-header loops; in a loop of several headers every call starts again at the loop's first header (SRC/DRIVERS/ICHHDA/wavhdrq.cpp:287), so it is false there, see `WaveCases.PairIsStuck`, and `WaveCost.HandsBackIff` says what is true instead.
- WaveRuns.EveryRunHandsOutTheStream: leaves out the steps that break the stream, by the exact conditions of `WaveStream.AddKeepsStreamIff` and `WaveCost.AdvanceKeepsStreamIff`.
- WaveRuns.EveryRunAccounts: ends where playing would overtake copying, by the exact condition of `WaveCost.AdvanceKeepsShapeIff`.
- WavePlay.AdvancePlays: the accounting header by header is for single headers and one-header loops; `WaveCost.HandsBackIff`, `WaveCost.KeepsCountIff` and `WaveCost.CountsAllIff` say what a call does with any loops.
- WaveQueue.WavehdrQueue.AdvanceCurrentPosition: asks that playing stays behind copying, a condition on the queue before the call; the source asserts it for the current header (SRC/DRIVERS/ICHHDA/wavhdrq.cpp:363), and what becomes of its pointers once that has failed is not modelled.
- WaveQueue.WavehdrQueue.AddBuffer: a header handed back that headers still queued loop back to may not be queued again; the driver would follow its fields while the client reuses them.
- Zero-length headers and loops of zero passes: excluded by `WaveModel.Playable`.
- BreakLoop: its correction of the accounting is only a comment in the source.
- A looped header is handed back with its count of passes run down to 0, as the source leaves it; the client's copy is not restored.
- OutputStream.OutputStream.HandleInterrupt: asks of playing what the queue's AdvanceCurrentPosition does; whether ring and queue are in step is stated for calls that count all that was played and no pass over a loop yet to be copied, since otherwise the queue's counts match no cursor.
- OutputStream.OutputStream.AddBuffer: asks the same of its client and of playing as the queue's AddBuffer and AdvanceCurrentPosition do.
- StreamRuns.EveryRunIsHeard: runs in which the engine outruns the data are not part of it; `StreamRuns.PassesStreamThenSilence` says what is heard up to the next reading.  What is heard is what the cursor readings say the engine has passed over; that it has not gone round the whole ring between two readings is for the readings to tell, as in the driver.
- AC3 frames, input streams and their GetAdvance, volume and rate: not modelled.
- TopologySelectors.ComesToLed: that all selectors are found is claimed where no way without repetitions takes more than 10 connections; beyond that `TopologySelectors.FirstWays` is what the search finds, and `TopologyCases.LosesSelector` shows that it is less.
- Codec discovery, widget parsing, amplifier controls and the drain of the unsolicited queue, which never advances its read pointer: not modelled; connection lists are arbitrary input.
- CommandRings.HdaCore.PushVerbs: the sleep, retry and timeout around it are not modelled.
- IrqModel.Configure: which IRQ the BIOS's routing table names after a move is a parameter; that a link stays on one IRQ is not claimed across moves, which relabel by that table.
- IrqRouter.Router.ScanConfiguredIrq: reading the routing table from ROM or BIOS is not modelled.
- I2cDriver.Execute: the bus of its claim about the end takes at least one step before every access; how long steps take is not modelled, nor are time-outs.
- I2cDriver.Transfer.Start: address, speed, clock registers and the failure to enable the controller are not modelled.
- I2cDriver.Transfer.SuccessMeansAll: a write's success means that all words are queued, as in the source; that they reached the device is not claimed.
- PciConfig.Type1Configuration: registers hold what is written; read-only bits and side effects of devices are not modelled, nor is mechanism #2, which has the same byte logic.
- PirqModel.GivenToLine: the line table comes from the ASL parser, which is not part of this model; a line that can use an IRQ is taken to be one of the eight.
- FindIrqForPirqx and the construction of the UEFI routing table: not modelled.
- Decibels.AmpFactorToDB: the table is any nondecreasing one of 965 entries that ends in 0xFFFF; the entries themselves are not transcribed.
- Registry, threads, events, memory mapping, KITL, IOCTL handlers and lookup tables: not modelled; they keep no state that the components above depend on.
