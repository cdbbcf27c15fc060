/** Runs in which devices ask for IRQs and are put on others: how long the pool lasts. */
module IrqRuns {
  import opened IrqModel

  // ---------------------------------------------------------------------------
  // Runs of requests and configurations
  // ---------------------------------------------------------------------------

  /** `rows` is the BIOS's routing table at the time. */
  datatype Event =
    | Asked(rows: seq<Row>, loc: Location, answers: Answers)
    | PutOn(rows: seq<Row>, loc: Location, irq: nat, force: bool, accepted: bool)

  function Do(s: State, best: bv16, ev: Event): (r: State)
    requires Proper(s)
    ensures Proper(r)
  {
    match ev
    case Asked(rows, loc, a) => Request(s, rows, best, loc, a)
    case PutOn(rows, loc, irq, force, accepted) => Configure(s, rows, loc, irq, force, accepted)
  }

  function AfterEvents(s: State, best: bv16, evs: seq<Event>, n: nat): (r: State)
    requires Proper(s) && n <= |evs|
    ensures Proper(r)
  {
    if n == 0 then s else Do(AfterEvents(s, best, evs, n - 1), best, evs[n - 1])
  }

  /** The slots taken and those that may be wanted yet. */
  function Load(s: State): nat { s.used + Empties(s.chains) }

  /** The event puts a device on an IRQ that has devices. */
  predicate Merges(s: State, ev: Event)
    requires Proper(s)
  {
    ev.PutOn? && Configures(s, ev.rows, ev.loc, ev.irq, ev.force, ev.accepted) && s.chains[ev.irq] != []
  }

  lemma {:induction false} EmptiesUpdate(t: seq<seq<Entry>>, i: nat, c: seq<Entry>)
    requires i < |t|
    ensures Empties(t[i := c]) + (if t[i] == [] then 1 else 0) == Empties(t) + (if c == [] then 1 else 0)
  {
    if i > 0 {
      assert t[i := c][1..] == t[1..][i - 1 := c];
      EmptiesUpdate(t[1..], i - 1, c);
    } else {
      assert t[i := c][1..] == t[1..];
    }
  }

  lemma MoveLoads(t: seq<seq<Entry>>, from: nat, to: nat, link: nat)
    requires |t| == NUM_IRQS && from < NUM_IRQS && to < NUM_IRQS && from != to && t[from] != []
    ensures Empties(Moved(t, from, to, link)) == Empties(t) + (if t[to] == [] then 0 else 1)
  {
    hide Empties;
    var c := t[to] + Relabel(t[from], link);
    EmptiesUpdate(t, to, c);
    EmptiesUpdate(t[to := c], from, []);
  }

  /** Exactly the configurations onto an IRQ with devices raise the load, each by one. */
  lemma DoLoads(s: State, best: bv16, ev: Event)
    requires Proper(s) && Roomy(s)
    ensures Load(Do(s, best, ev)) == Load(s) + if Merges(s, ev) then 1 else 0
  {
    hide Empties, Wanted;
    if ev.Asked? {
      RequestUses(s, ev.rows, best, ev.loc, ev.answers);
    } else if Configures(s, ev.rows, ev.loc, ev.irq, ev.force, ev.accepted) {
      var d := Holder(s.chains, ev.loc, 0);
      if d < NUM_IRQS {
        MoveLoads(s.chains, d, ev.irq, Wanted(ev.rows, ev.loc).link);
      } else {
        var u := Do(s, best, ev);
        EmptiesUpdate(s.chains, ev.irq, u.chains[ev.irq]);
        assert u.chains == s.chains[ev.irq := u.chains[ev.irq]];
        SomeEmpty(s.chains, ev.irq);
      }
    }
  }

  lemma {:induction false} SomeEmpty(t: seq<seq<Entry>>, i: nat)
    requires i < |t|
    ensures t[i] == [] ==> 0 < Empties(t)
  {
    if i > 0 {
      SomeEmpty(t[1..], i - 1);
    }
  }

  function MergesIn(s: State, best: bv16, evs: seq<Event>, n: nat): nat
    requires Proper(s) && n <= |evs|
  {
    if n == 0 then 0
    else MergesIn(s, best, evs, n - 1) + if Merges(AfterEvents(s, best, evs, n - 1), evs[n - 1]) then 1 else 0
  }

  /** Until the load reaches the pool's size it is what it was at first, and one more for every
      configuration onto an IRQ with devices. */
  lemma {:induction false} RunLoads(s: State, best: bv16, evs: seq<Event>, n: nat)
    requires Proper(s) && n <= |evs| && Load(s) + MergesIn(s, best, evs, n) < POOL_SIZE
    ensures Roomy(AfterEvents(s, best, evs, n))
    ensures Load(AfterEvents(s, best, evs, n)) == Load(s) + MergesIn(s, best, evs, n)
  {
    if n > 0 {
      hide Do, Merges, Empties;
      RunLoads(s, best, evs, n - 1);
      DoLoads(AfterEvents(s, best, evs, n - 1), best, evs[n - 1]);
    }
  }

  /** After a scan of at most 32 rows the pool lasts through any requests and any
      configurations of which no more than 223 are onto an IRQ with devices. */
  lemma PoolLasts(rows: seq<Row>, probe: Probe, best: bv16, evs: seq<Event>, n: nat)
    requires |rows| <= 32 && n <= |evs|
    requires MergesIn(Scan(State(seq(NUM_IRQS, i => []), 0), rows, probe), best, evs, n) <= 223
    ensures Roomy(AfterEvents(Scan(State(seq(NUM_IRQS, i => []), 0), rows, probe), best, evs, n))
  {
    var s := Scan(State(seq(NUM_IRQS, i => []), 0), rows, probe);
    ScanRowsFinds(State(seq(NUM_IRQS, i => []), 0), rows, probe, 0, Entry(0, 0, 0, 0));
    EmptiesBounded(s.chains);
    RunLoads(s, best, evs, n);
  }

  // ---------------------------------------------------------------------------
  // Two devices put on one IRQ in turn
  // ---------------------------------------------------------------------------

  function TwoRows(): seq<Row> {
    [Row(0, 8, Pin(1, 0x20), Pin(0, 0), Pin(0, 0), Pin(0, 0)),
      Row(0, 16, Pin(2, 0x20), Pin(0, 0), Pin(0, 0), Pin(0, 0))]
  }

  /** Device 1 or 2 of bus 0, first pin. */
  function Device(n: nat): Location { Location(0, 1 + n % 2, 0, 1) }

  function Turns(n: nat): seq<Event> {
    seq(n, i requires 0 <= i => PutOn(TwoRows(), Device(i), 5, true, true))
  }

  function OnFive(n: nat): seq<seq<Entry>> {
    seq(NUM_IRQS, i => if i == 5 && n > 0 then [Entry(1 + (n - 1) % 2, 0, 1 + (n - 1) % 2, 0)] else [])
  }

  lemma DeviceWanted(n: nat)
    ensures Wanted(TwoRows(), Device(n)).link == 1 + n % 2
  {
    if n % 2 == 1 {
      assert Wanted(TwoRows(), Device(n)) == Wanted(TwoRows()[1..], Device(n));
    }
  }

  lemma {:induction false} NotHeld(n: nat, i: nat)
    requires i <= NUM_IRQS
    ensures Holder(OnFive(n), Device(n), i) == NUM_IRQS
    decreases NUM_IRQS - i
  {
    if i < NUM_IRQS {
      NotHeld(n, i + 1);
    }
  }

  /** Each turn forgets the other device and takes a slot. */
  lemma OneTurn(n: nat)
    requires n < POOL_SIZE - 1
    ensures var s := State(OnFive(n), n);
            Configure(s, TwoRows(), Device(n), 5, true, true) == State(OnFive(n + 1), n + 1)
  {
    NotHeld(n, 0);
    DeviceWanted(n);
    hide Wanted, Holder;
    var e := Entry(1 + n % 2, 0, 1 + n % 2, 0);
    assert [] + [e] == [e];
    assert OnFive(n)[5 := []][5 := [e]] == OnFive(n + 1);
  }

  /** From an empty state 495 configurations of two devices use up the pool, though one device
      alone is routed all along: a fresh mapping would then go unrecorded. */
  lemma {:induction false} TurnsUsePool(best: bv16, n: nat, m: nat)
    requires m <= n <= POOL_SIZE - 1
    ensures AfterEvents(State(seq(NUM_IRQS, i => []), 0), best, Turns(n), m) == State(OnFive(m), m)
  {
    var s := State(seq(NUM_IRQS, i => []), 0);
    if m == 0 {
      assert s.chains == OnFive(0);
    } else {
      TurnsUsePool(best, n, m - 1);
      OneTurn(m - 1);
    }
  }

  lemma PoolUsedUp(best: bv16)
    ensures var s := AfterEvents(State(seq(NUM_IRQS, i => []), 0), best, Turns(POOL_SIZE - 1), POOL_SIZE - 1);
            s.used == POOL_SIZE - 1 && !Roomy(s)
  {
    TurnsUsePool(best, POOL_SIZE - 1, POOL_SIZE - 1);
    SomeEmpty(OnFive(POOL_SIZE - 1), 0);
  }

  /** A device routed to IRQ 5 is forgotten when another, not yet routed, is put there. */
  lemma ConfigureForgets()
    ensures var s := State(OnFive(1), 1);
            var u := Configure(s, TwoRows(), Device(1), 5, true, true);
            && Place(0, 1, 0) in Places(s.chains) && !(Places(s.chains) <= Places(u.chains))
  {
    OneTurn(1);
    NotHeld(1, 0);
    DeviceWanted(1);
    var s := State(OnFive(1), 1);
    hide Wanted, Holder, Configure;
    ForgetsIff(s);
  }

  lemma ForgetsIff(s: State)
    requires Proper(s) && s == State(OnFive(1), 1)
    requires Holder(s.chains, Device(1), 0) == NUM_IRQS && Wanted(TwoRows(), Device(1)).link == 2
    ensures !(Places(s.chains) <= Places(Configure(s, TwoRows(), Device(1), 5, true, true).chains))
    ensures Place(0, 1, 0) in Places(s.chains)
  {
    hide Places, PlacesOn, Wanted, Holder, Configure;
    ConfigureConservesIff(s, TwoRows(), Device(1), 5, true, true);
    var e := Entry(1, 0, 1, 0);
    PlacesUpdate(s.chains, 5, []);
    NoPlaces();
    assert s.chains[5] == [e];
    OnePlace(e);
    var p := Place(0, 1, 0);
    assert (Places(s.chains[5 := []]) + PlacesOn(s.chains[5]))[p] >= PlacesOn([e])[p] == 1;
    assert (Places(s.chains) + PlacesOn([]))[p] == Places(s.chains)[p];
  }

  lemma OnePlace(e: Entry)
    ensures PlacesOn([e]) == multiset{PlaceOf(e)}
  {
    NoPlaces();
  }

  /** A third device, which may have IRQ 7. */
  function ThirdRow(): seq<Row> { [Row(0, 24, Pin(3, 0x80), Pin(0, 0), Pin(0, 0), Pin(0, 0))] }

  lemma SevenIsFree(t: seq<seq<Entry>>)
    requires |t| == NUM_IRQS && t[7] == []
    ensures Free(t, 0x80, 7)
  {
    assert Mask(15) == 0x8000 && Mask(14) == 0x4000 && Mask(13) == 0x2000 && Mask(12) == 0x1000;
    assert Mask(11) == 0x800 && Mask(10) == 0x400 && Mask(9) == 0x200 && Mask(8) == 0x100 && Mask(7) == 0x80;
  }

  lemma PicksSeven(t: seq<seq<Entry>>, best: bv16)
    requires |t| == NUM_IRQS && t[7] == []
    ensures Pick(t, best, {}, NUM_IRQS) == NUM_IRQS && Pick(t, 0x80, {7}, NUM_IRQS) == 7
  {
    SevenIsFree(t);
    hide Free;
    var r, r' := Pick(t, best, {}, NUM_IRQS), Pick(t, 0x80, {7}, NUM_IRQS);
    hide Pick;
    assert r < NUM_IRQS ==> r in {};
    assert r' < NUM_IRQS ==> r' in {7};
  }

  lemma ThirdUnknown(n: nat, e: Entry)
    requires e.link == 3
    ensures Known(OnFive(n), e) == NUM_IRQS
  {
    hide Known;
    assert !Carried(OnFive(n), e);
  }

  /** Granted, and not written down. */
  lemma ThirdGranted(best: bv16, s: State)
    requires s == State(OnFive(POOL_SIZE - 1), POOL_SIZE - 1)
    ensures var loc, a := Location(0, 3, 0, 1), Answers({}, {7});
            && Granted(s.chains, ThirdRow(), best, loc, a) == 7
            && Request(s, ThirdRow(), best, loc, a) == s && s.chains[7] == []
  {
    var loc, a := Location(0, 3, 0, 1), Answers({}, {7});
    assert Wanted(ThirdRow(), loc) == Pin(3, 0x80);
    hide OnFive, Pick, Known, Wanted, Free;
    assert s.chains[7] == [] by { SevenEmpty(POOL_SIZE - 1); }
    ThirdUnknown(POOL_SIZE - 1, EntryAt(ThirdRow(), loc));
    PicksSeven(s.chains, best);
    FreshRecordedIff(s, ThirdRow(), best, loc, a);
  }

  lemma SevenEmpty(n: nat)
    ensures |OnFive(n)| == NUM_IRQS && OnFive(n)[7] == []
  {
  }

  /** With the pool used up so, a request of that device is granted an IRQ and goes unrecorded:
      the next one finds the IRQ as free as before. */
  lemma GrantIsForgotten(best: bv16)
    ensures var s := AfterEvents(State(seq(NUM_IRQS, i => []), 0), best, Turns(POOL_SIZE - 1), POOL_SIZE - 1);
            var loc, a := Location(0, 3, 0, 1), Answers({}, {7});
            && Granted(s.chains, ThirdRow(), best, loc, a) == 7
            && Request(s, ThirdRow(), best, loc, a) == s && s.chains[7] == []
  {
    hide OnFive, Turns, Granted, Request, ThirdRow, Pick, Known;
    TurnsUsePool(best, POOL_SIZE - 1, POOL_SIZE - 1);
    ThirdGranted(best, State(OnFive(POOL_SIZE - 1), POOL_SIZE - 1));
  }
}
