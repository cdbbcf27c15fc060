/** What a device that asks for an IRQ, or is put on one, can rely on: which IRQ it is granted, and
    what its chain says of it afterwards. */
module IrqLaws {
  import opened IrqModel

  // ---------------------------------------------------------------------------
  // Which IRQ is granted
  // ---------------------------------------------------------------------------

  /** Bit `i` of the bitmap is set. */
  predicate InBitmap(bits: bv16, i: nat)
    requires i < NUM_IRQS
  {
    (bits >> i) & 1 == 1
  }

  lemma MasksHigh()
    ensures Mask(15) == 0x8000 && Mask(14) == 0x4000 && Mask(13) == 0x2000 && Mask(12) == 0x1000
    ensures Mask(11) == 0x800 && Mask(10) == 0x400 && Mask(9) == 0x200 && Mask(8) == 0x100
  {
  }

  lemma MasksLow()
    ensures Mask(7) == 0x80 && Mask(6) == 0x40 && Mask(5) == 0x20 && Mask(4) == 0x10
    ensures Mask(3) == 8 && Mask(2) == 4 && Mask(1) == 2 && Mask(0) == 1
  {
    MasksHigh();
  }

  lemma BitsHigh(bits: bv16)
    ensures bits & 0x8000 != 0 <==> (bits >> 15) & 1 == 1
    ensures bits & 0x4000 != 0 <==> (bits >> 14) & 1 == 1
    ensures bits & 0x2000 != 0 <==> (bits >> 13) & 1 == 1
    ensures bits & 0x1000 != 0 <==> (bits >> 12) & 1 == 1
    ensures bits & 0x800 != 0 <==> (bits >> 11) & 1 == 1
    ensures bits & 0x400 != 0 <==> (bits >> 10) & 1 == 1
    ensures bits & 0x200 != 0 <==> (bits >> 9) & 1 == 1
    ensures bits & 0x100 != 0 <==> (bits >> 8) & 1 == 1
  {
  }

  lemma BitsLow(bits: bv16)
    ensures bits & 0x80 != 0 <==> (bits >> 7) & 1 == 1
    ensures bits & 0x40 != 0 <==> (bits >> 6) & 1 == 1
    ensures bits & 0x20 != 0 <==> (bits >> 5) & 1 == 1
    ensures bits & 0x10 != 0 <==> (bits >> 4) & 1 == 1
    ensures bits & 8 != 0 <==> (bits >> 3) & 1 == 1
    ensures bits & 4 != 0 <==> (bits >> 2) & 1 == 1
    ensures bits & 2 != 0 <==> (bits >> 1) & 1 == 1
    ensures bits & 1 != 0 <==> (bits >> 0) & 1 == 1
  {
  }

  /** The bit that the loops shift down stands for the IRQ they have come to. */
  lemma MaskIsBit(bits: bv16, i: nat)
    requires i < NUM_IRQS
    ensures Has(bits, Mask(i)) <==> InBitmap(bits, i)
  {
    MasksHigh();
    MasksLow();
    BitsHigh(bits);
    BitsLow(bits);
    hide Mask;
    if i < 8 {
      assert i == 0 || i == 1 || i == 2 || i == 3 || i == 4 || i == 5 || i == 6 || i == 7;
    } else {
      assert i == 8 || i == 9 || i == 10 || i == 11 || i == 12 || i == 13 || i == 14 || i == 15;
    }
  }

  predicate ForDevice(row: Row, loc: Location) { row.bus == loc.bus && row.devfn / 8 == loc.device }

  /** `pin` is what the row says of pin number `n`. */
  predicate IsPin(row: Row, n: nat, pin: Pin) {
    && (n == 1 ==> pin == row.a) && (n == 2 ==> pin == row.b)
    && (n == 3 ==> pin == row.c) && (n == 4 ==> pin == row.d)
    && (n == 0 || 4 < n ==> pin == Pin(0, 0))
  }

  /** `pin` is what the first row for the device says of its pin; there is no link without a row. */
  ghost predicate Routes(rows: seq<Row>, loc: Location, pin: Pin) {
    || (exists r :: FirstFor(rows, loc, r) && IsPin(rows[r], loc.pin, pin))
    || ((forall r :: 0 <= r < |rows| ==> !ForDevice(rows[r], loc)) && pin == Pin(0, 0))
  }

  ghost predicate FirstFor(rows: seq<Row>, loc: Location, r: int) {
    0 <= r < |rows| && ForDevice(rows[r], loc) && forall k :: 0 <= k < r ==> !ForDevice(rows[k], loc)
  }

  lemma {:induction false} WantedIs(rows: seq<Row>, loc: Location)
    ensures Routes(rows, loc, Wanted(rows, loc))
  {
    if rows != [] {
      if ForDevice(rows[0], loc) {
        assert FirstFor(rows, loc, 0);
      } else {
        WantedIs(rows[1..], loc);
        assert forall k :: 0 < k < |rows| ==> rows[k] == rows[1..][k - 1];
        if r :| FirstFor(rows[1..], loc, r) && IsPin(rows[1..][r], loc.pin, Wanted(rows[1..], loc)) {
          assert FirstFor(rows, loc, r + 1);
        }
      }
    }
  }

  /** The device's entry is on IRQ `i`; */
  predicate RoutedTo(t: seq<seq<Entry>>, e: Entry, i: nat) { i < |t| && e in t[i] }

  /** an entry with the link is; */
  predicate LinkOn(t: seq<seq<Entry>>, link: nat, i: nat) {
    i < |t| && exists j :: 0 <= j < |t[i]| && t[i][j].link == link
  }

  /** nothing is, and the BIOS accepts it from the bitmap. */
  predicate Usable(t: seq<seq<Entry>>, bits: bv16, accepts: set<nat>, i: nat) {
    i < NUM_IRQS <= |t| && InBitmap(bits, i) && t[i] == [] && i in accepts
  }

  /** `irq` is what a device with this pin is granted: the lowest IRQ that its entry is on; or
      the lowest that an entry with its link is on; or the highest of the exclusive PCI IRQs that
      can be used; or the highest of those the pin can have.  NUM_IRQS is a refusal. */
  ghost predicate Grants(t: seq<seq<Entry>>, pin: Pin, best: bv16, loc: Location, a: Answers, irq: nat) {
    var e := Entry(pin.link, loc.bus, loc.device, loc.func);
    if pin.link == 0 then irq == NUM_IRQS
    else if exists i: nat :: RoutedTo(t, e, i) then RoutedTo(t, e, irq) && forall k: nat | k < irq :: !RoutedTo(t, e, k)
    else if exists i: nat :: LinkOn(t, e.link, i) then
      LinkOn(t, e.link, irq) && forall k: nat | k < irq :: !LinkOn(t, e.link, k)
    else if exists i: nat :: Usable(t, best, a.exclusive, i) then HighestUsable(t, best, a.exclusive, irq)
    else if exists i: nat :: Usable(t, pin.bits, a.possible, i) then HighestUsable(t, pin.bits, a.possible, irq)
    else irq == NUM_IRQS
  }

  ghost predicate HighestUsable(t: seq<seq<Entry>>, bits: bv16, accepts: set<nat>, irq: nat) {
    Usable(t, bits, accepts, irq) && forall k: nat | irq < k :: !Usable(t, bits, accepts, k)
  }

  lemma CarriesIs(t: seq<seq<Entry>>, e: Entry, i: nat)
    requires |t| == NUM_IRQS && i < NUM_IRQS
    ensures Carries(t[i], e, true) <==> RoutedTo(t, e, i)
    ensures Carries(t[i], e, false) <==> LinkOn(t, e.link, i)
  {
    if e in t[i] {
      var j :| 0 <= j < |t[i]| && t[i][j] == e;
      assert Matches(t[i][j], e, true);
    }
    if LinkOn(t, e.link, i) {
      var j :| 0 <= j < |t[i]| && t[i][j].link == e.link;
      assert Matches(t[i][j], e, false);
    }
  }

  lemma UsableIs(t: seq<seq<Entry>>, bits: bv16, accepts: set<nat>, i: nat)
    requires |t| == NUM_IRQS && i < NUM_IRQS
    ensures Usable(t, bits, accepts, i) <==> Free(t, bits, i) && i in accepts
  {
    MaskIsBit(bits, i);
  }

  lemma PicksHighest(t: seq<seq<Entry>>, bits: bv16, accepts: set<nat>)
    requires |t| == NUM_IRQS
    ensures var r := Pick(t, bits, accepts, NUM_IRQS);
            && (r < NUM_IRQS ==> HighestUsable(t, bits, accepts, r))
            && (r == NUM_IRQS ==> forall k: nat :: !Usable(t, bits, accepts, k))
  {
    forall k: nat | k < NUM_IRQS
      ensures Usable(t, bits, accepts, k) <==> Free(t, bits, k) && k in accepts
    {
      UsableIs(t, bits, accepts, k);
    }
    hide Free, InBitmap;
  }

  lemma FindsLowest(t: seq<seq<Entry>>, e: Entry)
    requires |t| == NUM_IRQS
    ensures var full, link := Lookup(t, e, true, 0), Lookup(t, e, false, 0);
            && (full < NUM_IRQS ==> RoutedTo(t, e, full) && forall k: nat | k < full :: !RoutedTo(t, e, k))
            && (full == NUM_IRQS ==> forall k: nat :: !RoutedTo(t, e, k))
            && (link < NUM_IRQS ==> LinkOn(t, e.link, link) && forall k: nat | k < link :: !LinkOn(t, e.link, k))
            && (link == NUM_IRQS ==> forall k: nat :: !LinkOn(t, e.link, k))
  {
    forall k: nat | k < NUM_IRQS
      ensures Carries(t[k], e, true) <==> RoutedTo(t, e, k)
      ensures Carries(t[k], e, false) <==> LinkOn(t, e.link, k)
    {
      CarriesIs(t, e, k);
    }
    hide Carries;
  }

  /** Every request is granted just that. */
  lemma GrantedIs(t: seq<seq<Entry>>, rows: seq<Row>, best: bv16, loc: Location, a: Answers)
    requires |t| == NUM_IRQS
    ensures Routes(rows, loc, Wanted(rows, loc))
    ensures Grants(t, Wanted(rows, loc), best, loc, a, Granted(t, rows, best, loc, a))
  {
    WantedIs(rows, loc);
    var pin, e := Wanted(rows, loc), EntryAt(rows, loc);
    FindsLowest(t, e);
    PicksHighest(t, best, a.exclusive);
    PicksHighest(t, pin.bits, a.possible);
    GrantedTries(t, rows, best, loc, a);
    hide Wanted, Routes, Lookup, Pick, RoutedTo, LinkOn, Usable, HighestUsable, Granted;
  }

  lemma GrantedTries(t: seq<seq<Entry>>, rows: seq<Row>, best: bv16, loc: Location, a: Answers)
    requires |t| == NUM_IRQS
    ensures var e, irq := EntryAt(rows, loc), Granted(t, rows, best, loc, a);
            var full, link := Lookup(t, e, true, 0), Lookup(t, e, false, 0);
            var first, next := Pick(t, best, a.exclusive, NUM_IRQS),
              Pick(t, Wanted(rows, loc).bits, a.possible, NUM_IRQS);
            irq == if e.link == 0 then NUM_IRQS else if full < NUM_IRQS then full else if link < NUM_IRQS then link
                   else if first < NUM_IRQS then first else next
  {
    hide Wanted, Lookup, Pick;
  }

  /** The exclusive IRQs come first, even if the pin could have a higher one. */
  lemma ExclusiveComesFirst()
    ensures Granted(seq(NUM_IRQS, i => []), [Row(0, 8, Pin(0x60, 0x8000), Pin(0, 0), Pin(0, 0), Pin(0, 0))], 0x800,
                    Location(0, 1, 0, 1), Answers({11}, {15})) == 11
  {
    var t: seq<seq<Entry>> := seq(NUM_IRQS, i => []);
    var rows, loc := [Row(0, 8, Pin(0x60, 0x8000), Pin(0, 0), Pin(0, 0), Pin(0, 0))], Location(0, 1, 0, 1);
    GrantedIs(t, rows, 0x800, loc, Answers({11}, {15}));
    assert Wanted(rows, loc) == Pin(0x60, 0x8000);
    assert Usable(t, 0x800, {11}, 11);
    hide InBitmap;
  }

  // ---------------------------------------------------------------------------
  // A device put on an IRQ
  // ---------------------------------------------------------------------------

  /** The lowest IRQ with an entry for the device. */
  ghost predicate IsOn(t: seq<seq<Entry>>, loc: Location, d: nat)
    requires |t| == NUM_IRQS
  {
    d < NUM_IRQS && Holds(t[d], loc) && forall k: nat | k < d :: !Holds(t[k], loc)
  }

  /** The chain `u` is `c` followed by the entries of `d` in order, each with the link `link`. */
  ghost predicate Followed(u: seq<Entry>, c: seq<Entry>, d: seq<Entry>, link: nat) {
    && |u| == |c| + |d|
    && (forall i :: 0 <= i < |c| ==> u[i] == c[i])
    && (forall i :: 0 <= i < |d| ==> u[|c| + i] == Entry(link, d[i].bus, d[i].device, d[i].func))
  }

  /** A device that has an IRQ is put on another exactly if the BIOS takes it, the table names a
      link for it, and it is alone on its IRQ or the others may go with it.  All of them then
      come after those on the other IRQ, with that link, and leave theirs empty. */
  lemma ConfigureMoves(s: State, rows: seq<Row>, loc: Location, irq: nat, force: bool, accepted: bool, d: nat)
    requires Proper(s) && IsOn(s.chains, loc, d)
    ensures Routes(rows, loc, Wanted(rows, loc))
    ensures var u, link := Configure(s, rows, loc, irq, force, accepted), Wanted(rows, loc).link;
            && |u.chains| == NUM_IRQS && u.used == s.used
            && if irq < NUM_IRQS && irq != d && (force || |s.chains[d]| == 1) && accepted && link != 0 then
                 && Followed(u.chains[irq], s.chains[irq], s.chains[d], link) && u.chains[d] == []
                 && forall k: nat | k < NUM_IRQS && k != irq && k != d :: u.chains[k] == s.chains[k]
               else u == s
  {
    WantedIs(rows, loc);
    hide Wanted, Routes;
    assert Holder(s.chains, loc, 0) == d;
  }

  /** A device that has none is put on an IRQ exactly if the BIOS takes it and the table names a
      link for it.  It is then the only one there, or, with the pool used up, none is. */
  lemma ConfigurePuts(s: State, rows: seq<Row>, loc: Location, irq: nat, force: bool, accepted: bool)
    requires Proper(s) && forall d: nat :: !IsOn(s.chains, loc, d)
    ensures Routes(rows, loc, Wanted(rows, loc))
    ensures var u, link := Configure(s, rows, loc, irq, force, accepted), Wanted(rows, loc).link;
            && |u.chains| == NUM_IRQS
            && if irq < NUM_IRQS && accepted && link != 0 then
                 && (if s.used + 1 < POOL_SIZE then
                       && u.used == s.used + 1
                       && u.chains[irq] == [Entry(link, loc.bus % 256, loc.device % 256, loc.func % 256)]
                     else u.used == s.used && u.chains[irq] == [])
                 && forall k: nat | k < NUM_IRQS && k != irq :: u.chains[k] == s.chains[k]
               else u == s
  {
    WantedIs(rows, loc);
    hide Wanted, Routes;
    var d := Holder(s.chains, loc, 0);
    assert d < NUM_IRQS ==> IsOn(s.chains, loc, d);
    assert forall e: Entry :: [] + [e] == [e];
  }

  /** A device that was put on an IRQ, and asks for its pin again, is granted that IRQ exactly if
      no lower one has its entry. */
  lemma ConfiguredIsGranted(s: State, rows: seq<Row>, best: bv16, loc: Location, irq: nat, force: bool,
                            accepted: bool, a: Answers)
    requires Proper(s) && Configures(s, rows, loc, irq, force, accepted)
    requires loc.bus < 256 && loc.device < 256 && loc.func < 256
    requires Holder(s.chains, loc, 0) < NUM_IRQS || s.used + 1 < POOL_SIZE
    ensures var t, e := Configure(s, rows, loc, irq, force, accepted).chains, EntryAt(rows, loc);
            Granted(t, rows, best, loc, a) == irq <==> forall k: nat | k < irq :: !RoutedTo(t, e, k)
  {
    var t, e := Configure(s, rows, loc, irq, force, accepted).chains, EntryAt(rows, loc);
    assert RoutedTo(t, e, irq) by {
      ConfiguredIsRouted(s, rows, loc, irq, force, accepted);
    }
    GrantedIs(t, rows, best, loc, a);
    hide Configure, Configures, Wanted, RoutedTo, LinkOn, HighestUsable, Granted, Holder;
  }

  lemma ConfiguredIsRouted(s: State, rows: seq<Row>, loc: Location, irq: nat, force: bool, accepted: bool)
    requires Proper(s) && Configures(s, rows, loc, irq, force, accepted)
    requires loc.bus < 256 && loc.device < 256 && loc.func < 256
    requires Holder(s.chains, loc, 0) < NUM_IRQS || s.used + 1 < POOL_SIZE
    ensures RoutedTo(Configure(s, rows, loc, irq, force, accepted).chains, EntryAt(rows, loc), irq)
  {
    var d, u := Holder(s.chains, loc, 0), Configure(s, rows, loc, irq, force, accepted);
    if d < NUM_IRQS {
      ConfigureMoves(s, rows, loc, irq, force, accepted, d);
      var j :| 0 <= j < |s.chains[d]| && IsAt(s.chains[d][j], loc);
      assert u.chains[irq][|s.chains[irq]| + j] == EntryAt(rows, loc);
    } else {
      ConfigurePuts(s, rows, loc, irq, force, accepted);
    }
  }

  // ---------------------------------------------------------------------------
  // What the scan finds
  // ---------------------------------------------------------------------------

  /** The header of function `f` of some row's device names interrupt line `irq` and a pin with a
      link, and `e` is its entry.  Functions beyond the first count only if the first says that
      there are several. */
  ghost predicate NamedAt(row: Row, probe: Probe, f: nat, pin: Pin, irq: nat, e: Entry) {
    var c, first := probe(row.bus, row.devfn / 8, f), probe(row.bus, row.devfn / 8, 0);
    && f < 8 && (f == 0 || first.header / 128 % 2 == 1)
    && c.valid && (c.header % 128 == 0 || c.header % 128 == 1 || c.header % 128 == 2)
    && c.line == irq < NUM_IRQS && IsPin(row, c.pin, pin) && pin.link != 0
    && e == Entry(pin.link, row.bus, row.devfn / 8, f)
  }

  ghost predicate Named(rows: seq<Row>, probe: Probe, irq: nat, e: Entry) {
    exists r, f, pin :: 0 <= r < |rows| && NamedAt(rows[r], probe, f, pin, irq, e)
  }

  /** After the scan each IRQ's chain has exactly those entries. */
  lemma ScanIs(s: State, rows: seq<Row>, probe: Probe, irq: nat, e: Entry)
    requires Proper(s) && irq < NUM_IRQS && s.used + 8 * |rows| < POOL_SIZE
    ensures e in Scan(s, rows, probe).chains[irq] <==> Named(rows, probe, irq, e)
  {
    ScanFindsTheConfigured(s, rows, probe, irq, e);
    hide Scan;
    if FoundIn(rows, probe, irq, e) {
      var r, f :| 0 <= r < |rows| && Configured(rows[r], probe, f, irq, e);
      assert NamedAt(rows[r], probe, f, PinOf(rows[r], probe(rows[r].bus, rows[r].devfn / 8, f).pin), irq, e);
    }
    if Named(rows, probe, irq, e) {
      var r, f, pin :| 0 <= r < |rows| && NamedAt(rows[r], probe, f, pin, irq, e);
      assert Configured(rows[r], probe, f, irq, e);
    }
  }
}
