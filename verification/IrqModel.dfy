/** PCI interrupt routing: which (link, bus, device, function) entries hang on each of the
    sixteen IRQs, as a value.  A state has one chain of entries per IRQ and the number of
    pool slots handed out so far. */
module IrqModel {

  const NUM_IRQS: nat := 16

  /** One page of eight-byte links less NUM_IRQS; slot 0 is never handed out. */
  const POOL_SIZE: nat := 4096 / 8 - NUM_IRQS

  datatype Entry = Entry(link: nat, bus: nat, device: nat, func: nat)

  datatype State = State(chains: seq<seq<Entry>>, used: nat)

  ghost predicate Proper(s: State) {
    |s.chains| == NUM_IRQS && s.used < POOL_SIZE
  }

  /** A pin of a routing table row: its link value (0 for none) and the IRQs it can use. */
  datatype Pin = Pin(link: nat, bits: bv16)

  datatype Row = Row(bus: nat, devfn: nat, a: Pin, b: Pin, c: Pin, d: Pin)

  function PinOf(row: Row, pin: nat): Pin {
    if pin == 1 then row.a
    else if pin == 2 then row.b
    else if pin == 3 then row.c
    else if pin == 4 then row.d
    else Pin(0, 0)
  }

  function Append(s: State, irq: nat, e: Entry): State
    requires Proper(s) && irq < NUM_IRQS
  {
    if s.used < POOL_SIZE - 1 then State(s.chains[irq := s.chains[irq] + [e]], s.used + 1) else s
  }

  // ---------------------------------------------------------------------------
  // The scan of what the firmware configured
  // ---------------------------------------------------------------------------

  /** What reading a function's configuration space yields: whether a device answers, its
      header type, and the interrupt line and pin that header holds. */
  datatype Config = Config(valid: bool, header: nat, line: nat, pin: nat)

  type Probe = (nat, nat, nat) -> Config

  datatype Finding = Finding(irq: nat, entry: Entry)

  predicate Multi(c: Config) { c.header / 128 % 2 == 1 }

  /** The header types that hold an interrupt line: device, bridge and CardBus bridge. */
  predicate Wired(row: Row, c: Config) {
    c.valid && c.header % 128 <= 2 && c.line <= 15 && PinOf(row, c.pin).link != 0
  }

  function EntryOf(row: Row, c: Config, f: nat): Entry {
    Entry(PinOf(row, c.pin).link, row.bus, row.devfn / 8, f)
  }

  /** The findings of one row from function `f` on. */
  function RowFindings(row: Row, probe: Probe, f: nat, multi: bool): seq<Finding>
    decreases 8 - f
  {
    if f >= 8 then []
    else
      var c := probe(row.bus, row.devfn / 8, f);
      var m := if f == 0 then Multi(c) else multi;
      (if Wired(row, c) then [Finding(c.line, EntryOf(row, c, f))] else [])
      + if m then RowFindings(row, probe, f + 1, m) else []
  }

  function Note(s: State, x: Finding): (r: State)
    requires Proper(s)
    ensures Proper(r)
  {
    if x.irq >= NUM_IRQS || x.entry in s.chains[x.irq] then s else Append(s, x.irq, x.entry)
  }

  function NoteAll(s: State, xs: seq<Finding>): (r: State)
    requires Proper(s)
    ensures Proper(r)
    decreases |xs|
  {
    if xs == [] then s else NoteAll(Note(s, xs[0]), xs[1..])
  }

  function ScanRows(s: State, rows: seq<Row>, probe: Probe): (r: State)
    requires Proper(s)
    ensures Proper(r)
    decreases |rows|
  {
    if rows == [] then s
    else ScanRows(NoteAll(s, RowFindings(rows[0], probe, 0, false)), rows[1..], probe)
  }

  /** The scan forgets every chain, but never gives a pool slot back. */
  function Scan(s: State, rows: seq<Row>, probe: Probe): (r: State)
    requires Proper(s)
    ensures Proper(r)
  {
    ScanRows(State(seq(NUM_IRQS, i => []), s.used), rows, probe)
  }

  /** Function `f` of the row's device is configured to raise `irq`, through the link in `e`. */
  ghost predicate Configured(row: Row, probe: Probe, f: nat, irq: nat, e: Entry) {
    var c := probe(row.bus, row.devfn / 8, f);
    && f < 8 && (f > 0 ==> Multi(probe(row.bus, row.devfn / 8, 0)))
    && Wired(row, c) && c.line == irq && e == EntryOf(row, c, f)
  }

  lemma {:induction false} RowFindingsFrom(row: Row, probe: Probe, f: nat, multi: bool, irq: nat, e: Entry)
    requires f <= 8 && (f > 0 ==> multi && Multi(probe(row.bus, row.devfn / 8, 0)))
    ensures Finding(irq, e) in RowFindings(row, probe, f, multi) <==>
            exists g :: f <= g < 8 && Configured(row, probe, g, irq, e)
    ensures |RowFindings(row, probe, f, multi)| <= 8 - f
    decreases 8 - f
  {
    if f < 8 {
      var c := probe(row.bus, row.devfn / 8, f);
      var m := if f == 0 then Multi(c) else multi;
      if m {
        RowFindingsFrom(row, probe, f + 1, m, irq, e);
      }
      assert Configured(row, probe, f, irq, e) <==>
             Wired(row, c) && Finding(irq, e) == Finding(c.line, EntryOf(row, c, f));
    }
  }

  ghost predicate NoDuplicates(c: seq<Entry>) {
    forall i, j :: 0 <= i < j < |c| ==> c[i] != c[j]
  }

  ghost predicate AllDistinct(s: State)
    requires Proper(s)
  {
    forall i :: 0 <= i < NUM_IRQS ==> NoDuplicates(s.chains[i])
  }

  lemma NoteKeepsDistinct(s: State, x: Finding)
    requires Proper(s) && AllDistinct(s)
    ensures AllDistinct(Note(s, x))
    ensures forall i :: 0 <= i < NUM_IRQS ==> s.chains[i] <= Note(s, x).chains[i]
  {
  }

  lemma {:induction false} NoteAllFinds(s: State, xs: seq<Finding>, irq: nat, e: Entry)
    requires Proper(s) && AllDistinct(s) && irq < NUM_IRQS
    ensures var r := NoteAll(s, xs);
            && AllDistinct(r) && s.used <= r.used <= s.used + |xs|
            && (s.used + |xs| < POOL_SIZE ==>
                  (e in r.chains[irq] <==> e in s.chains[irq] || Finding(irq, e) in xs))
    decreases |xs|
  {
    if xs != [] {
      hide AllDistinct;
      NoteKeepsDistinct(s, xs[0]);
      NoteAllFinds(Note(s, xs[0]), xs[1..], irq, e);
    }
  }

  ghost predicate FoundIn(rows: seq<Row>, probe: Probe, irq: nat, e: Entry) {
    exists r, f :: 0 <= r < |rows| && Configured(rows[r], probe, f, irq, e)
  }

  lemma {:induction false} ScanRowsFinds(s: State, rows: seq<Row>, probe: Probe, irq: nat, e: Entry)
    requires Proper(s) && AllDistinct(s) && irq < NUM_IRQS
    ensures var r := ScanRows(s, rows, probe);
            && AllDistinct(r) && s.used <= r.used <= s.used + 8 * |rows|
            && (s.used + 8 * |rows| < POOL_SIZE ==>
                  (e in r.chains[irq] <==> e in s.chains[irq] || FoundIn(rows, probe, irq, e)))
    decreases |rows|
  {
    if rows != [] {
      hide AllDistinct, Configured, NoteAll, RowFindings;
      var xs := RowFindings(rows[0], probe, 0, false);
      RowFindingsFrom(rows[0], probe, 0, false, irq, e);
      NoteAllFinds(s, xs, irq, e);
      ScanRowsFinds(NoteAll(s, xs), rows[1..], probe, irq, e);
      FoundFirst(rows, probe, irq, e);
    }
  }

  lemma FoundFirst(rows: seq<Row>, probe: Probe, irq: nat, e: Entry)
    requires rows != []
    ensures FoundIn(rows, probe, irq, e) <==>
            (exists f :: 0 <= f < 8 && Configured(rows[0], probe, f, irq, e)) || FoundIn(rows[1..], probe, irq, e)
  {
    if FoundIn(rows[1..], probe, irq, e) {
      var r, f :| 0 <= r < |rows| - 1 && Configured(rows[1..][r], probe, f, irq, e);
      assert rows[r + 1] == rows[1..][r];
    }
    if FoundIn(rows, probe, irq, e) {
      var r, f :| 0 <= r < |rows| && Configured(rows[r], probe, f, irq, e);
      if r > 0 {
        assert rows[1..][r - 1] == rows[r];
      }
    }
  }

  /** After the scan each IRQ's chain holds exactly the functions the firmware configured
      to raise it, each once; the pool is big enough for 32 rows of eight functions, and
      for sixteen entries more. */
  lemma ScanFindsTheConfigured(s: State, rows: seq<Row>, probe: Probe, irq: nat, e: Entry)
    requires Proper(s) && irq < NUM_IRQS
    ensures var r := Scan(s, rows, probe);
            && AllDistinct(r)
            && (s.used + 8 * |rows| < POOL_SIZE ==>
                  (e in r.chains[irq] <==> FoundIn(rows, probe, irq, e)))
            && (s.used == 0 && |rows| <= 32 ==> Roomy(r))
  {
    var empty := State(seq(NUM_IRQS, i => []), s.used);
    ScanRowsFinds(empty, rows, probe, irq, e);
    EmptiesBounded(Scan(s, rows, probe).chains);
  }

  // ---------------------------------------------------------------------------
  // Requests
  // ---------------------------------------------------------------------------

  /** The lowest IRQ from `i` on with an entry for `e`'s link, and for `full` also its
      bus, device and function; NUM_IRQS if there is none. */
  predicate Matches(x: Entry, e: Entry, full: bool) { x.link == e.link && (full ==> x == e) }

  predicate Carries(c: seq<Entry>, e: Entry, full: bool) {
    exists j :: 0 <= j < |c| && Matches(c[j], e, full)
  }

  function Lookup(t: seq<seq<Entry>>, e: Entry, full: bool, i: nat): (r: nat)
    requires |t| == NUM_IRQS && i <= NUM_IRQS
    ensures i <= r <= NUM_IRQS
    ensures r < NUM_IRQS ==> Carries(t[r], e, full)
    ensures forall k :: i <= k < r ==> !Carries(t[k], e, full)
    decreases NUM_IRQS - i
  {
    if i == NUM_IRQS || Carries(t[i], e, full) then i else Lookup(t, e, full, i + 1)
  }

  function Mask(i: nat): bv16
    requires i < NUM_IRQS
    decreases NUM_IRQS - i
  {
    if i == NUM_IRQS - 1 then 0x8000 else Half(Mask(i + 1))
  }

  function Half(bit: bv16): bv16 { bit >> 1 }

  predicate Has(bits: bv16, bit: bv16) { bits & bit != 0 }

  predicate Free(t: seq<seq<Entry>>, bits: bv16, i: nat)
    requires |t| == NUM_IRQS && i < NUM_IRQS
  {
    Has(bits, Mask(i)) && t[i] == []
  }

  /** The highest IRQ below `n` in `bits` with no entries that the BIOS accepts. */
  function Pick(t: seq<seq<Entry>>, bits: bv16, accepts: set<nat>, n: nat): (r: nat)
    requires |t| == NUM_IRQS && n <= NUM_IRQS
    ensures r < n || r == NUM_IRQS
    ensures r < NUM_IRQS ==> Free(t, bits, r) && r in accepts
    ensures forall k :: 0 <= k < n && (r < k || r == NUM_IRQS) && Free(t, bits, k) ==> k !in accepts
  {
    if n == 0 then NUM_IRQS
    else if Free(t, bits, n - 1) && n - 1 in accepts then n - 1
    else Pick(t, bits, accepts, n - 1)
  }

  datatype Location = Location(bus: nat, device: nat, func: nat, pin: nat)

  /** The BIOS's answers to one request: the IRQs it would accept while the exclusive ones
      are tried, and while the possible ones are. */
  datatype Answers = Answers(exclusive: set<nat>, possible: set<nat>)

  /** The pin's routing in the first row for the device; Pin(0, 0) if there is no row. */
  function Wanted(rows: seq<Row>, loc: Location): Pin {
    if rows == [] then Pin(0, 0)
    else if rows[0].bus == loc.bus && rows[0].devfn / 8 == loc.device then PinOf(rows[0], loc.pin)
    else Wanted(rows[1..], loc)
  }

  function EntryAt(rows: seq<Row>, loc: Location): Entry {
    Entry(Wanted(rows, loc).link, loc.bus, loc.device, loc.func)
  }

  /** The IRQ already routed to the entry; NUM_IRQS if none is. */
  function Known(t: seq<seq<Entry>>, e: Entry): (r: nat)
    requires |t| == NUM_IRQS
    ensures r <= NUM_IRQS && (r == NUM_IRQS <==> !Carried(t, e))
  {
    var full := Lookup(t, e, true, 0);
    if full < NUM_IRQS then full else Lookup(t, e, false, 0)
  }

  ghost predicate Carried(t: seq<seq<Entry>>, e: Entry)
    requires |t| == NUM_IRQS
  {
    exists i :: 0 <= i < NUM_IRQS && Carries(t[i], e, false)
  }

  function Fresh(t: seq<seq<Entry>>, bits: bv16, best: bv16, a: Answers): nat
    requires |t| == NUM_IRQS
  {
    var r := Pick(t, best, a.exclusive, NUM_IRQS);
    if r < NUM_IRQS then r else Pick(t, bits, a.possible, NUM_IRQS)
  }

  /** The IRQ a request is granted; NUM_IRQS if it is refused. */
  function Granted(t: seq<seq<Entry>>, rows: seq<Row>, best: bv16, loc: Location, a: Answers): nat
    requires |t| == NUM_IRQS
  {
    var e := EntryAt(rows, loc);
    if e.link == 0 then NUM_IRQS
    else if Known(t, e) < NUM_IRQS then Known(t, e)
    else Fresh(t, Wanted(rows, loc).bits, best, a)
  }

  function Request(s: State, rows: seq<Row>, best: bv16, loc: Location, a: Answers): (r: State)
    requires Proper(s)
    ensures Proper(r)
  {
    var irq, e := Granted(s.chains, rows, best, loc, a), EntryAt(rows, loc);
    if irq < NUM_IRQS && Known(s.chains, e) == NUM_IRQS then Append(s, irq, e) else s
  }

  lemma RequestCases(s: State, rows: seq<Row>, best: bv16, loc: Location, a: Answers)
    requires Proper(s)
    ensures var e, irq := EntryAt(rows, loc), Granted(s.chains, rows, best, loc, a);
            && e == Entry(Wanted(rows, loc).link, loc.bus, loc.device, loc.func)
            && (e.link == 0 ==> irq == NUM_IRQS)
            && (e.link != 0 && Known(s.chains, e) < NUM_IRQS ==> irq == Known(s.chains, e))
            && (e.link != 0 && Known(s.chains, e) == NUM_IRQS ==>
                  irq == Fresh(s.chains, Wanted(rows, loc).bits, best, a))
            && Request(s, rows, best, loc, a) ==
                 if irq < NUM_IRQS && Known(s.chains, e) == NUM_IRQS then Append(s, irq, e) else s
  {
    hide Wanted, Known, Fresh, Append;
  }

  // ---------------------------------------------------------------------------
  // Runs of requests
  // ---------------------------------------------------------------------------

  function Empties(t: seq<seq<Entry>>): nat {
    if t == [] then 0 else (if t[0] == [] then 1 else 0) + Empties(t[1..])
  }

  lemma {:induction false} EmptiesBounded(t: seq<seq<Entry>>)
    ensures Empties(t) <= |t|
  {
    if t != [] {
      EmptiesBounded(t[1..]);
    }
  }

  lemma {:induction false} EmptiesFilled(t: seq<seq<Entry>>, i: nat, c: seq<Entry>)
    requires i < |t| && t[i] == [] && c != []
    ensures Empties(t) == Empties(t[i := c]) + 1
  {
    if i > 0 {
      assert t[i := c][1..] == t[1..][i - 1 := c];
      EmptiesFilled(t[1..], i - 1, c);
    } else {
      assert t[i := c][1..] == t[1..];
    }
  }

  /** A free pool slot is left for every IRQ with no entries. */
  ghost predicate Roomy(s: State)
    requires Proper(s)
  {
    s.used + Empties(s.chains) < POOL_SIZE
  }

  /** From `t` to `u` chains with entries stay as they are, and what appears on an empty
      one has a link that was nowhere before. */
  ghost predicate Grew(t: seq<seq<Entry>>, u: seq<seq<Entry>>)
    requires |t| == |u| == NUM_IRQS
  {
    forall i :: 0 <= i < NUM_IRQS ==> GrewAt(t, u, i)
  }

  ghost predicate GrewAt(t: seq<seq<Entry>>, u: seq<seq<Entry>>, i: nat)
    requires |t| == |u| == NUM_IRQS && i < NUM_IRQS
  {
    if t[i] != [] then u[i] == t[i] else u[i] == [] || (|u[i]| == 1 && !Carried(t, u[i][0]))
  }

  lemma RequestGrows(s: State, rows: seq<Row>, best: bv16, loc: Location, a: Answers)
    requires Proper(s) && Roomy(s)
    ensures var u := Request(s, rows, best, loc, a);
            && Roomy(u) && Grew(s.chains, u.chains)
            && var irq := Granted(s.chains, rows, best, loc, a);
               irq < NUM_IRQS ==> Known(u.chains, EntryAt(rows, loc)) == irq
  {
    var irq, e := Granted(s.chains, rows, best, loc, a), EntryAt(rows, loc);
    var u := Request(s, rows, best, loc, a);
    if irq < NUM_IRQS && Known(s.chains, e) == NUM_IRQS {
      assert s.chains[irq] == [];
      EmptiesBounded(s.chains[irq := [e]]);
      EmptiesFilled(s.chains, irq, [e]);
      assert s.chains[irq] + [e] == [e];
      OnlyOne(s.chains, e, irq);
      GrewByOne(s.chains, e, irq);
      hide Known, Grew;
    }
  }

  lemma GrewByOne(t: seq<seq<Entry>>, e: Entry, irq: nat)
    requires |t| == NUM_IRQS && irq < NUM_IRQS && t[irq] == [] && !Carried(t, e)
    ensures Grew(t, t[irq := [e]])
  {
  }

  lemma OnlyOne(t: seq<seq<Entry>>, e: Entry, irq: nat)
    requires |t| == NUM_IRQS && irq < NUM_IRQS && !Carried(t, e)
    ensures Known(t[irq := [e]], e) == irq
  {
    var u := t[irq := [e]];
    assert Matches(u[irq][0], e, true);
    assert Carries(u[irq], e, true);
    forall k | 0 <= k < NUM_IRQS && k != irq
      ensures !Carries(u[k], e, true)
    {
      assert !Carries(t[k], e, false);
    }
  }

  /** Growing never changes the answer for a link that is already there. */
  lemma KnownStays(t: seq<seq<Entry>>, u: seq<seq<Entry>>, e: Entry)
    requires |t| == |u| == NUM_IRQS && Grew(t, u) && Known(t, e) < NUM_IRQS
    ensures Known(u, e) == Known(t, e)
  {
    forall k, full | 0 <= k < NUM_IRQS
      ensures Carries(u[k], e, full) == Carries(t[k], e, full)
    {
      assert GrewAt(t, u, k);
      SameCarried(t, u, e, k, full);
    }
    SameLookup(t, u, e, true, 0);
    SameLookup(t, u, e, false, 0);
  }

  lemma SameCarried(t: seq<seq<Entry>>, u: seq<seq<Entry>>, e: Entry, k: nat, full: bool)
    requires |t| == |u| == NUM_IRQS && k < NUM_IRQS && GrewAt(t, u, k) && Carried(t, e)
    ensures Carries(u[k], e, full) == Carries(t[k], e, full)
  {
    if u[k] != [] && u[k][0].link == e.link {
      AlikeCarried(t, e, u[k][0]);
    }
  }

  lemma AlikeCarried(t: seq<seq<Entry>>, e: Entry, x: Entry)
    requires |t| == NUM_IRQS && e.link == x.link && Carried(t, e)
    ensures Carried(t, x)
  {
    var i :| 0 <= i < NUM_IRQS && Carries(t[i], e, false);
    var j :| 0 <= j < |t[i]| && Matches(t[i][j], e, false);
    assert Matches(t[i][j], x, false);
    assert Carries(t[i], x, false);
  }

  lemma {:induction false} SameLookup(t: seq<seq<Entry>>, u: seq<seq<Entry>>, e: Entry, full: bool, i: nat)
    requires |t| == |u| == NUM_IRQS && i <= NUM_IRQS
    requires forall k :: 0 <= k < NUM_IRQS ==> Carries(u[k], e, full) == Carries(t[k], e, full)
    ensures Lookup(u, e, full, i) == Lookup(t, e, full, i)
    decreases NUM_IRQS - i
  {
    if i < NUM_IRQS {
      SameLookup(t, u, e, full, i + 1);
    }
  }

  lemma GrewOnward(t: seq<seq<Entry>>, u: seq<seq<Entry>>, v: seq<seq<Entry>>)
    requires |t| == |u| == |v| == NUM_IRQS && Grew(t, u) && Grew(u, v)
    ensures Grew(t, v)
  {
    forall i | 0 <= i < NUM_IRQS
      ensures GrewAt(t, v, i)
    {
      assert GrewAt(t, u, i) && GrewAt(u, v, i);
      if v[i] != [] && Carried(t, v[i][0]) {
        CarriedOnward(t, u, v[i][0]);
      }
    }
  }

  lemma CarriedOnward(t: seq<seq<Entry>>, u: seq<seq<Entry>>, e: Entry)
    requires |t| == |u| == NUM_IRQS && Grew(t, u) && Carried(t, e)
    ensures Carried(u, e)
  {
    var k :| 0 <= k < NUM_IRQS && Carries(t[k], e, false);
    assert GrewAt(t, u, k);
  }

  datatype Call = Call(loc: Location, answers: Answers)

  /** The state before the `n`-th call of a run. */
  function Before(s: State, rows: seq<Row>, best: bv16, calls: seq<Call>, n: nat): (r: State)
    requires Proper(s) && n <= |calls|
    ensures Proper(r)
  {
    if n == 0 then s
    else Request(Before(s, rows, best, calls, n - 1), rows, best, calls[n - 1].loc, calls[n - 1].answers)
  }

  /** The IRQ the `n`-th call is granted; NUM_IRQS for a refusal. */
  function Result(s: State, rows: seq<Row>, best: bv16, calls: seq<Call>, n: nat): nat
    requires Proper(s) && n < |calls|
  {
    Granted(Before(s, rows, best, calls, n).chains, rows, best, calls[n].loc, calls[n].answers)
  }

  lemma {:induction false} RunGrows(s: State, rows: seq<Row>, best: bv16, calls: seq<Call>, i: nat, j: nat)
    requires Proper(s) && Roomy(s) && i <= j <= |calls|
    ensures Roomy(Before(s, rows, best, calls, i)) && Roomy(Before(s, rows, best, calls, j))
    ensures Grew(Before(s, rows, best, calls, i).chains, Before(s, rows, best, calls, j).chains)
    decreases j
  {
    hide Roomy, Grew, Request;
    if i < j {
      RunGrows(s, rows, best, calls, i, j - 1);
      var u := Before(s, rows, best, calls, j - 1);
      RequestGrows(u, rows, best, calls[j - 1].loc, calls[j - 1].answers);
      GrewOnward(Before(s, rows, best, calls, i).chains, u.chains, Before(s, rows, best, calls, j).chains);
    } else if i > 0 {
      RunGrows(s, rows, best, calls, i - 1, i - 1);
      var u := Before(s, rows, best, calls, i - 1);
      RequestGrows(u, rows, best, calls[i - 1].loc, calls[i - 1].answers);
      GrewSame(Before(s, rows, best, calls, i).chains);
    } else {
      GrewSame(s.chains);
    }
  }

  /** With at most 32 routing rows the pool never runs out, whatever is requested after the
      scan and however often. */
  lemma PoolNeverRunsOut(rows: seq<Row>, probe: Probe, best: bv16, calls: seq<Call>, n: nat)
    requires |rows| <= 32 && n <= |calls|
    ensures var s := Scan(State(seq(NUM_IRQS, i => []), 0), rows, probe);
            && Roomy(Before(s, rows, best, calls, n))
            && Before(s, rows, best, calls, n).used + Empties(Before(s, rows, best, calls, n).chains) <= 272
  {
    var s := Scan(State(seq(NUM_IRQS, i => []), 0), rows, probe);
    ScanRowsFinds(State(seq(NUM_IRQS, i => []), 0), rows, probe, 0, Entry(0, 0, 0, 0));
    EmptiesBounded(s.chains);
    RunUses(s, rows, best, calls, n);
  }

  /** Every slot a run of requests takes fills an empty chain. */
  lemma {:induction false} RunUses(s: State, rows: seq<Row>, best: bv16, calls: seq<Call>, n: nat)
    requires Proper(s) && Roomy(s) && n <= |calls|
    ensures var u := Before(s, rows, best, calls, n);
            Roomy(u) && u.used + Empties(u.chains) == s.used + Empties(s.chains)
  {
    if n > 0 {
      hide Empties, Granted;
      RunUses(s, rows, best, calls, n - 1);
      RequestUses(Before(s, rows, best, calls, n - 1), rows, best, calls[n - 1].loc, calls[n - 1].answers);
    }
  }

  lemma RequestUses(s: State, rows: seq<Row>, best: bv16, loc: Location, a: Answers)
    requires Proper(s) && Roomy(s)
    ensures var u := Request(s, rows, best, loc, a);
            u.used + Empties(u.chains) == s.used + Empties(s.chains)
  {
    var irq, e := Granted(s.chains, rows, best, loc, a), EntryAt(rows, loc);
    if irq < NUM_IRQS && Known(s.chains, e) == NUM_IRQS {
      assert s.chains[irq] == [] && s.chains[irq] + [e] == [e];
      EmptiesFilled(s.chains, irq, [e]);
    }
  }

  lemma GrewSame(t: seq<seq<Entry>>)
    requires |t| == NUM_IRQS
    ensures Grew(t, t)
  {
  }

  /** A request once granted is granted ever after, whatever the BIOS answers in between,
      and always the same IRQ. */
  lemma SameRequestSameIrq(s: State, rows: seq<Row>, best: bv16, calls: seq<Call>, i: nat, j: nat)
    requires Proper(s) && Roomy(s) && i < j < |calls| && calls[i].loc == calls[j].loc
    requires Result(s, rows, best, calls, i) < NUM_IRQS
    ensures Result(s, rows, best, calls, j) == Result(s, rows, best, calls, i)
  {
    hide Roomy, Grew, Request, Known, Fresh, Wanted;
    var before, after, later := Before(s, rows, best, calls, i), Before(s, rows, best, calls, i + 1),
      Before(s, rows, best, calls, j);
    var e := EntryAt(rows, calls[i].loc);
    RunGrows(s, rows, best, calls, i, i);
    RequestGrows(before, rows, best, calls[i].loc, calls[i].answers);
    RunGrows(s, rows, best, calls, i + 1, j);
    KnownStays(after.chains, later.chains, e);
  }

  /** Each link value hangs on one IRQ at most. */
  ghost predicate OneIrqPerLink(t: seq<seq<Entry>>)
    requires |t| == NUM_IRQS
  {
    forall i, k, e :: 0 <= i < NUM_IRQS && 0 <= k < NUM_IRQS && Carries(t[i], e, false) && Carries(t[k], e, false) ==>
      i == k
  }

  lemma RequestKeepsOneIrq(s: State, rows: seq<Row>, best: bv16, loc: Location, a: Answers)
    requires Proper(s) && OneIrqPerLink(s.chains)
    ensures OneIrqPerLink(Request(s, rows, best, loc, a).chains)
  {
    var t, u, e := s.chains, Request(s, rows, best, loc, a).chains, EntryAt(rows, loc);
    if u != t {
      var irq := Granted(t, rows, best, loc, a);
      assert t[irq] == [] && t[irq] + [e] == [e];
      forall i, k, x | 0 <= i < NUM_IRQS && 0 <= k < NUM_IRQS && Carries(u[i], x, false) && Carries(u[k], x, false)
        ensures i == k
      {
        if x.link == e.link {
          forall p | 0 <= p < NUM_IRQS && p != irq
            ensures !Carries(u[p], x, false)
          {
            if Carries(t[p], x, false) {
              AlikeCarried(t, x, e);
            }
          }
        }
      }
    }
  }

  lemma {:induction false} RunKeepsOneIrq(s: State, rows: seq<Row>, best: bv16, calls: seq<Call>, n: nat)
    requires Proper(s) && OneIrqPerLink(s.chains) && n <= |calls|
    ensures OneIrqPerLink(Before(s, rows, best, calls, n).chains)
  {
    hide OneIrqPerLink;
    if n > 0 {
      RunKeepsOneIrq(s, rows, best, calls, n - 1);
      RequestKeepsOneIrq(Before(s, rows, best, calls, n - 1), rows, best, calls[n - 1].loc, calls[n - 1].answers);
    }
  }

  /** With one IRQ per link, every entry of a link is given the IRQ that carries it. */
  lemma KnownByLink(t: seq<seq<Entry>>, e: Entry, x: Entry)
    requires |t| == NUM_IRQS && OneIrqPerLink(t) && e.link == x.link && Carried(t, e)
    ensures Known(t, x) == Known(t, e) < NUM_IRQS
  {
    AlikeCarried(t, e, x);
    var i, k := Known(t, e), Known(t, x);
    KnownCarries(t, e);
    KnownCarries(t, x);
    var j :| 0 <= j < |t[k]| && Matches(t[k][j], x, false);
    assert Matches(t[k][j], e, false);
    assert Carries(t[k], e, false);
  }

  lemma KnownCarries(t: seq<seq<Entry>>, e: Entry)
    requires |t| == NUM_IRQS && Known(t, e) < NUM_IRQS
    ensures Carries(t[Known(t, e)], e, false)
  {
    var k, full := Known(t, e), Lookup(t, e, true, 0);
    if full < NUM_IRQS {
      var j :| 0 <= j < |t[k]| && Matches(t[k][j], e, true);
      assert Matches(t[k][j], e, false);
    }
  }

  /** If no link value was on two IRQs before the run, none ever is, and all requests for
      the same link value are given the same IRQ. */
  lemma SameLinkSameIrq(s: State, rows: seq<Row>, best: bv16, calls: seq<Call>, i: nat, j: nat)
    requires Proper(s) && Roomy(s) && OneIrqPerLink(s.chains) && i < j < |calls|
    requires Wanted(rows, calls[i].loc).link == Wanted(rows, calls[j].loc).link
    requires Result(s, rows, best, calls, i) < NUM_IRQS
    ensures OneIrqPerLink(Before(s, rows, best, calls, j).chains)
    ensures Result(s, rows, best, calls, j) == Result(s, rows, best, calls, i)
  {
    hide Roomy, Grew, Request, Known, Fresh, Wanted, OneIrqPerLink, Carried;
    var before, after, later := Before(s, rows, best, calls, i), Before(s, rows, best, calls, i + 1),
      Before(s, rows, best, calls, j);
    var e := EntryAt(rows, calls[i].loc);
    RunGrows(s, rows, best, calls, i, i);
    RequestGrows(before, rows, best, calls[i].loc, calls[i].answers);
    RunGrows(s, rows, best, calls, i + 1, j);
    KnownStays(after.chains, later.chains, e);
    RunKeepsOneIrq(s, rows, best, calls, j);
    KnownByLink(later.chains, e, EntryAt(rows, calls[j].loc));
  }

  /** An IRQ freshly mapped by a request had no entries, and stays with the request's link:
      nothing is ever added to it, and any later call given it asks for the same link. */
  lemma FreshIsExclusive(s: State, rows: seq<Row>, best: bv16, calls: seq<Call>, i: nat, j: nat)
    requires Proper(s) && Roomy(s) && i < j < |calls|
    requires var e := EntryAt(rows, calls[i].loc);
             e.link != 0 && Known(Before(s, rows, best, calls, i).chains, e) == NUM_IRQS
    requires Result(s, rows, best, calls, i) < NUM_IRQS
    ensures var irq := Result(s, rows, best, calls, i);
            && Before(s, rows, best, calls, i).chains[irq] == []
            && Before(s, rows, best, calls, j).chains[irq] == [EntryAt(rows, calls[i].loc)]
            && (Result(s, rows, best, calls, j) == irq ==>
                  Wanted(rows, calls[j].loc).link == Wanted(rows, calls[i].loc).link)
  {
    hide *;
    var before, after, later := Before(s, rows, best, calls, i), Before(s, rows, best, calls, i + 1),
      Before(s, rows, best, calls, j);
    var irq, e := Result(s, rows, best, calls, i), EntryAt(rows, calls[i].loc);
    RunGrows(s, rows, best, calls, i, i);
    StepOf(s, rows, best, calls, i);
    StepOf(s, rows, best, calls, i + 1);
    RequestGrows(before, rows, best, calls[i].loc, calls[i].answers);
    FreshRecordedIff(before, rows, best, calls[i].loc, calls[i].answers);
    RunGrows(s, rows, best, calls, i + 1, j);
    StepOf(s, rows, best, calls, j);
    FilledStays(before.chains, after.chains, later.chains, irq, e);
    if Result(s, rows, best, calls, j) == irq {
      GrantedOn(later.chains, rows, best, calls[j].loc, calls[j].answers, e);
      LinkOf(rows, calls[i].loc);
    }
  }

  lemma StepOf(s: State, rows: seq<Row>, best: bv16, calls: seq<Call>, n: nat)
    requires Proper(s) && n < |calls|
    ensures Proper(Before(s, rows, best, calls, n)) && |Before(s, rows, best, calls, n).chains| == NUM_IRQS
    ensures Before(s, rows, best, calls, n + 1) ==
              Request(Before(s, rows, best, calls, n), rows, best, calls[n].loc, calls[n].answers)
    ensures Result(s, rows, best, calls, n) ==
              Granted(Before(s, rows, best, calls, n).chains, rows, best, calls[n].loc, calls[n].answers)
  {
    hide Request, Granted;
  }

  lemma LinkOf(rows: seq<Row>, loc: Location)
    ensures EntryAt(rows, loc).link == Wanted(rows, loc).link
  {
  }

  lemma FilledStays(t: seq<seq<Entry>>, u: seq<seq<Entry>>, v: seq<seq<Entry>>, irq: nat, e: Entry)
    requires |t| == |u| == |v| == NUM_IRQS && irq < NUM_IRQS && u == t[irq := [e]] && Grew(u, v)
    ensures v[irq] == [e]
  {
    assert GrewAt(u, v, irq);
  }

  lemma GrantedOn(t: seq<seq<Entry>>, rows: seq<Row>, best: bv16, loc: Location, a: Answers, e: Entry)
    requires |t| == NUM_IRQS && Granted(t, rows, best, loc, a) < NUM_IRQS
    requires t[Granted(t, rows, best, loc, a)] == [e]
    ensures Wanted(rows, loc).link == e.link
  {
    var x := EntryAt(rows, loc);
    if Known(t, x) < NUM_IRQS {
      KnownCarries(t, x);
    }
  }

  /** A freshly mapped IRQ is written down exactly when the pool has a slot left: with none
      the caller gets the IRQ, but its chain stays empty and the next request can be given
      it again. */
  lemma FreshRecordedIff(s: State, rows: seq<Row>, best: bv16, loc: Location, a: Answers)
    requires Proper(s) && EntryAt(rows, loc).link != 0
    requires Known(s.chains, EntryAt(rows, loc)) == NUM_IRQS && Granted(s.chains, rows, best, loc, a) < NUM_IRQS
    ensures var irq, e, u := Granted(s.chains, rows, best, loc, a), EntryAt(rows, loc), Request(s, rows, best, loc, a);
            && s.chains[irq] == []
            && (Known(u.chains, e) == irq <==> s.used + 1 < POOL_SIZE)
            && (Known(u.chains, e) != irq ==> u == s)
            && (Known(u.chains, e) == irq ==> u.chains == s.chains[irq := [e]])
  {
    var irq, e := Granted(s.chains, rows, best, loc, a), EntryAt(rows, loc);
    assert s.chains[irq] + [e] == [e];
    OnlyOne(s.chains, e, irq);
  }

  // ---------------------------------------------------------------------------
  // Moving a device to another IRQ
  // ---------------------------------------------------------------------------

  predicate IsAt(x: Entry, loc: Location) {
    x.bus == loc.bus && x.device == loc.device && x.func == loc.func
  }

  predicate Holds(c: seq<Entry>, loc: Location) {
    exists j :: 0 <= j < |c| && IsAt(c[j], loc)
  }

  /** The lowest IRQ from `i` on with an entry for the device; NUM_IRQS if there is none. */
  function Holder(t: seq<seq<Entry>>, loc: Location, i: nat): (r: nat)
    requires |t| == NUM_IRQS && i <= NUM_IRQS
    ensures i <= r <= NUM_IRQS
    ensures r < NUM_IRQS ==> Holds(t[r], loc)
    ensures forall k :: i <= k < r ==> !Holds(t[k], loc)
    decreases NUM_IRQS - i
  {
    if i == NUM_IRQS || Holds(t[i], loc) then i else Holder(t, loc, i + 1)
  }

  function Relabel(c: seq<Entry>, link: nat): (r: seq<Entry>) {
    seq(|c|, i requires 0 <= i < |c| => c[i].(link := link))
  }

  function Moved(t: seq<seq<Entry>>, from: nat, to: nat, link: nat): (r: seq<seq<Entry>>)
    requires |t| == NUM_IRQS && from < NUM_IRQS && to < NUM_IRQS
  {
    t[to := t[to] + Relabel(t[from], link)][from := []]
  }

  /** Whether the request to put the device on `irq` gets as far as the BIOS. */
  predicate Movable(t: seq<seq<Entry>>, loc: Location, irq: nat, force: bool)
    requires |t| == NUM_IRQS
  {
    var d := Holder(t, loc, 0);
    irq < NUM_IRQS && d != irq && (d < NUM_IRQS ==> force || |t[d]| == 1)
  }

  /** `rows` is the routing table as the BIOS leaves it. */
  predicate Configures(s: State, rows: seq<Row>, loc: Location, irq: nat, force: bool, accepted: bool)
    requires Proper(s)
  {
    Movable(s.chains, loc, irq, force) && accepted && Wanted(rows, loc).link != 0
  }

  function Configure(s: State, rows: seq<Row>, loc: Location, irq: nat, force: bool, accepted: bool): (r: State)
    requires Proper(s)
    ensures Proper(r)
  {
    var d, link := Holder(s.chains, loc, 0), Wanted(rows, loc).link;
    if !Configures(s, rows, loc, irq, force, accepted) then s
    else if d < NUM_IRQS then s.(chains := Moved(s.chains, d, irq, link))
    else Append(s.(chains := s.chains[irq := []]), irq,
                Entry(link, loc.bus % 256, loc.device % 256, loc.func % 256))
  }

  datatype Place = Place(bus: nat, device: nat, func: nat)

  function PlaceOf(x: Entry): Place { Place(x.bus, x.device, x.func) }

  function PlacesOn(c: seq<Entry>): multiset<Place> {
    if c == [] then multiset{} else multiset{PlaceOf(c[0])} + PlacesOn(c[1..])
  }

  function Places(t: seq<seq<Entry>>): multiset<Place> {
    if t == [] then multiset{} else PlacesOn(t[0]) + Places(t[1..])
  }

  lemma {:induction false} PlacesOnAppend(c: seq<Entry>, d: seq<Entry>)
    ensures PlacesOn(c + d) == PlacesOn(c) + PlacesOn(d)
  {
    if c == [] {
      assert c + d == d;
    } else {
      assert (c + d)[1..] == c[1..] + d;
      PlacesOnAppend(c[1..], d);
    }
  }

  lemma {:induction false} PlacesOnRelabel(c: seq<Entry>, link: nat)
    ensures PlacesOn(Relabel(c, link)) == PlacesOn(c)
  {
    if c != [] {
      assert Relabel(c, link)[1..] == Relabel(c[1..], link);
      PlacesOnRelabel(c[1..], link);
    }
  }

  lemma {:induction false} PlacesUpdate(t: seq<seq<Entry>>, i: nat, c: seq<Entry>)
    requires i < |t|
    ensures Places(t[i := c]) + PlacesOn(t[i]) == Places(t) + PlacesOn(c)
  {
    hide Places, PlacesOn;
    PlacesFirst(t);
    PlacesFirst(t[i := c]);
    if i > 0 {
      assert t[i := c][1..] == t[1..][i - 1 := c];
      PlacesUpdate(t[1..], i - 1, c);
      Regroup(PlacesOn(t[0]), Places(t[i := c][1..]), PlacesOn(t[i]), Places(t[1..]), PlacesOn(c));
    } else {
      assert t[i := c][1..] == t[1..];
    }
  }

  lemma PlacesFirst(t: seq<seq<Entry>>)
    requires t != []
    ensures Places(t) == PlacesOn(t[0]) + Places(t[1..])
  {
  }

  lemma Regroup(h: multiset<Place>, a: multiset<Place>, x: multiset<Place>, b: multiset<Place>, y: multiset<Place>)
    requires a + x == b + y
    ensures (h + a) + x == (h + b) + y
  {
    assert (h + a) + x == h + (a + x);
  }

  /** Moving a chain loses no device and invents none. */
  lemma MoveConserves(t: seq<seq<Entry>>, from: nat, to: nat, link: nat)
    requires |t| == NUM_IRQS && from < NUM_IRQS && to < NUM_IRQS && from != to
    ensures Places(Moved(t, from, to, link)) == Places(t)
  {
    hide Places, PlacesOn;
    var c := t[to] + Relabel(t[from], link);
    PlacesUpdate(t, to, c);
    PlacesUpdate(t[to := c], from, []);
    assert Places(t[to := c]) + multiset{} == Places(t[to := c]);
    PlacesOnAppend(t[to], Relabel(t[from], link));
    PlacesOnRelabel(t[from], link);
    NoPlaces();
    Chained(Places(Moved(t, from, to, link)), Places(t[to := c]), Places(t), PlacesOn(t[to]), PlacesOn(t[from]));
  }

  lemma Chained(a: multiset<Place>, b: multiset<Place>, c: multiset<Place>, x: multiset<Place>, y: multiset<Place>)
    requires a + y == b && b + x == c + (x + y)
    ensures a == c
  {
    assert (a + y) + x == a + (x + y);
    Cancel(a, c, x + y);
  }

  lemma Cancel(a: multiset<Place>, b: multiset<Place>, c: multiset<Place>)
    requires a + c == b + c
    ensures a == b
  {
    forall p: Place
      ensures a[p] == b[p]
    {
      assert (a + c)[p] == (b + c)[p];
    }
  }

  lemma Outgrows(a: multiset<Place>, b: multiset<Place>, c: multiset<Place>, d: multiset<Place>)
    requires b + c == a + d
    ensures a <= b <==> c <= d
  {
    forall p: Place
      ensures a[p] <= b[p] <==> c[p] <= d[p]
    {
      assert (b + c)[p] == (a + d)[p];
    }
  }

  lemma NoPlaces()
    ensures PlacesOn([]) == multiset{}
  {
  }

  /** Configuring an IRQ keeps every device that was routed, unless it succeeds for a device
      with no IRQ on an IRQ that had devices: those are then forgotten. */
  lemma ConfigureConservesIff(s: State, rows: seq<Row>, loc: Location, irq: nat, force: bool, accepted: bool)
    requires Proper(s)
    ensures var u := Configure(s, rows, loc, irq, force, accepted);
            var d := Holder(s.chains, loc, 0);
            && (d < NUM_IRQS ==> Places(u.chains) == Places(s.chains))
            && (d == NUM_IRQS && Configures(s, rows, loc, irq, force, accepted)
                && loc.bus < 256 && loc.device < 256 && loc.func < 256 ==>
                  (Places(s.chains) <= Places(u.chains) <==> s.chains[irq] == []))
  {
    hide Places, PlacesOn;
    var d, link := Holder(s.chains, loc, 0), Wanted(rows, loc).link;
    if Configures(s, rows, loc, irq, force, accepted) {
      if d < NUM_IRQS {
        MoveConserves(s.chains, d, irq, link);
      } else {
        var u := Configure(s, rows, loc, irq, force, accepted);
        NoPlaces();
        PlacesUpdate(s.chains, irq, u.chains[irq]);
        assert u.chains == s.chains[irq := u.chains[irq]];
        Outgrows(Places(s.chains), Places(u.chains), PlacesOn(s.chains[irq]), PlacesOn(u.chains[irq]));
        if s.chains[irq] != [] && loc.bus < 256 && loc.device < 256 && loc.func < 256 {
          Overwritten(s.chains[irq], loc, u.chains[irq]);
        }
      }
    }
  }

  lemma Overwritten(c: seq<Entry>, loc: Location, d: seq<Entry>)
    requires c != [] && !Holds(c, loc) && |d| <= 1 && (d != [] ==> IsAt(d[0], loc))
    ensures !(PlacesOn(c) <= PlacesOn(d))
  {
    var p := PlaceOf(c[0]);
    assert PlacesOn(c)[p] >= 1;
    assert !IsAt(c[0], loc);
    if d != [] {
      assert d == [d[0]];
      NoPlaces();
    }
    assert PlacesOn(d)[p] == 0;
  }
}
