/** The routing state the kernel keeps: sixteen chains of links drawn from one pool.  The
    BIOS's routing table, its answers and the devices' configuration space are parameters;
    a missing routing table is one without rows. */
module IrqRouter {
  import opened IrqModel
  import opened IrqLaws
  import opened IrqChains

  /** The links of a chain, as the walks see them. */
  lemma Walkable(m: Mem, slots: seq<seq<nat>>, irq: nat)
    requires Shaped(m, slots) && irq < NUM_IRQS
    ensures |m.pool| == POOL_SIZE && |m.heads| == |slots| == NUM_IRQS && |Meaning(m, slots).chains| == NUM_IRQS
    ensures WalkFrom(m, slots[irq], Meaning(m, slots).chains[irq], m.heads[irq])
  {
    assert ChainOk(m.pool, m.heads[irq], slots[irq]);
    forall j | 0 <= j < |slots[irq]|
      ensures StepAt(m, slots[irq], Meaning(m, slots).chains[irq], j)
    {
      assert LinkAt(m.pool, slots[irq], j);
    }
  }

  /** Where the next link of an IRQ goes. */
  lemma LinkPlace(m: Mem, slots: seq<seq<nat>>, irq: nat)
    requires Shaped(m, slots) && irq < NUM_IRQS
    ensures |m.pool| == POOL_SIZE && |m.heads| == |slots| == NUM_IRQS && m.used < POOL_SIZE
    ensures LastOf(slots[irq]) < POOL_SIZE && (LastOf(slots[irq]) != 0 ==> m.pool[LastOf(slots[irq])].next == 0)
    ensures LastOf(slots[irq]) == 0 ==> m.heads[irq] == 0
    ensures m.used == POOL_SIZE - 1 ==> forall e :: Append(Meaning(m, slots), irq, e) == Meaning(m, slots)
  {
    EndOf(m, slots, irq);
    EmptyHead(m, slots, irq);
    Walkable(m, slots, irq);
    if slots[irq] != [] {
      assert StepAt(m, slots[irq], Meaning(m, slots).chains[irq], |slots[irq]| - 1);
    }
  }

  /** The slots of a chain are as many as its entries, and none is 0. */
  lemma ChainSlots(m: Mem, slots: seq<seq<nat>>, irq: nat)
    requires Shaped(m, slots) && irq < NUM_IRQS
    ensures |slots| == |Meaning(m, slots).chains| == NUM_IRQS && |Meaning(m, slots).chains[irq]| == |slots[irq]|
    ensures forall j :: 0 <= j < |slots[irq]| ==> slots[irq][j] != 0
  {
    Walkable(m, slots, irq);
  }

  ghost predicate StepAt(m: Mem, c: seq<nat>, es: seq<Entry>, j: nat)
    requires |c| == |es| && j < |c|
  {
    && 0 < c[j] < |m.pool| && m.pool[c[j]].entry == es[j]
    && m.pool[c[j]].next == SlotAt(c, j + 1)
  }

  ghost predicate WalkFrom(m: Mem, c: seq<nat>, es: seq<Entry>, head: nat) {
    && |c| == |es| && head == SlotAt(c, 0)
    && (forall j :: 0 <= j < |c| ==> 0 < c[j])
    && (forall j :: 0 <= j < |c| ==> StepAt(m, c, es, j))
  }

  function SlotAt(c: seq<nat>, j: nat): nat { if j < |c| then c[j] else 0 }

  lemma {:induction false} LookupIs(t: seq<seq<Entry>>, e: Entry, full: bool, i: nat, r: nat)
    requires |t| == NUM_IRQS && i <= r <= NUM_IRQS && (r < NUM_IRQS ==> Carries(t[r], e, full))
    requires forall k :: i <= k < r ==> !Carries(t[k], e, full)
    ensures Lookup(t, e, full, i) == r
    decreases r - i
  {
    if i < r {
      LookupIs(t, e, full, i + 1, r);
    }
  }

  lemma {:induction false} HolderIs(t: seq<seq<Entry>>, loc: Location, i: nat, r: nat)
    requires |t| == NUM_IRQS && i <= r <= NUM_IRQS && (r < NUM_IRQS ==> Holds(t[r], loc))
    requires forall k :: i <= k < r ==> !Holds(t[k], loc)
    ensures Holder(t, loc, i) == r
    decreases r - i
  {
    if i < r {
      HolderIs(t, loc, i + 1, r);
    }
  }

  /** The pin's routing in the first row for the device. */
  method FindPin(rows: seq<Row>, loc: Location) returns (p: Pin)
    ensures p == Wanted(rows, loc)
  {
    var k := 0;
    while k < |rows|
      invariant 0 <= k <= |rows| && Wanted(rows[k..], loc) == Wanted(rows, loc)
    {
      assert rows[k..][1..] == rows[k + 1..];
      if rows[k].bus == loc.bus && rows[k].devfn / 8 == loc.device {
        return PinOf(rows[k], loc.pin);
      }
      k := k + 1;
    }
    return Pin(0, 0);
  }

  /** A chain with its `n`-th to `j`-th entries relabelled. */
  ghost function RelabelPart(es: seq<Entry>, n: nat, j: nat, link: nat): (r: seq<Entry>)
  {
    seq(|es|, k requires 0 <= k < |es| => if n <= k < j then es[k].(link := link) else es[k])
  }

  lemma NothingRelabelled(es: seq<Entry>, n: nat, link: nat)
    ensures RelabelPart(es, n, n, link) == es
  {
  }

  lemma RelabelNext(es: seq<Entry>, n: nat, j: nat, link: nat)
    requires n <= j < |es|
    ensures var part := RelabelPart(es, n, j, link);
            RelabelPart(es, n, j + 1, link) == part[j := part[j].(link := link)]
  {
  }

  /** The chains with that done to one of them. */
  ghost function Target(t: seq<seq<Entry>>, irq: nat, n: nat, j: nat, link: nat): (r: seq<seq<Entry>>)
    requires irq < |t|
  {
    t[irq := RelabelPart(t[irq], n, j, link)]
  }

  lemma TargetNothing(t: seq<seq<Entry>>, irq: nat, n: nat, link: nat)
    requires irq < |t|
    ensures Target(t, irq, n, n, link) == t
  {
    NothingRelabelled(t[irq], n, link);
  }

  lemma TargetNext(t: seq<seq<Entry>>, irq: nat, n: nat, j: nat, link: nat)
    requires irq < |t| && n <= j < |t[irq]|
    ensures var u := Target(t, irq, n, j, link);
            && |u| == |t| && |u[irq]| == |t[irq]|
            && Target(t, irq, n, j + 1, link) == u[irq := u[irq][j := u[irq][j].(link := link)]]
  {
    RelabelNext(t[irq], n, j, link);
  }

  lemma TargetAll(t: seq<seq<Entry>>, irq: nat, n: nat, link: nat)
    requires irq < |t| && n <= |t[irq]|
    ensures Target(t, irq, n, |t[irq]|, link) == t[irq := RelabelPart(t[irq], n, |t[irq]|, link)]
  {
  }

  lemma RelabelMoved(a: seq<Entry>, b: seq<Entry>, link: nat)
    ensures RelabelPart(a + b, |a|, |a + b|, link) == a + Relabel(b, link)
  {
  }

  /** The scan of one function. */
  lemma RowStep(s: State, row: Row, probe: Probe, f: nat, multi: bool)
    requires Proper(s) && f < 8
    ensures var c := probe(row.bus, row.devfn / 8, f);
            var m := if f == 0 then Multi(c) else multi;
            var s' := if Wired(row, c) then Note(s, Finding(c.line, EntryOf(row, c, f))) else s;
            NoteAll(s, RowFindings(row, probe, f, multi))
              == NoteAll(s', if m then RowFindings(row, probe, f + 1, m) else [])
  {
    hide Note, NoteAll, RowFindings, Wired, Multi;
    RowFirst(row, probe, f, multi);
    var c := probe(row.bus, row.devfn / 8, f);
    var m := if f == 0 then Multi(c) else multi;
    var rest := if m then RowFindings(row, probe, f + 1, m) else [];
    assert [] + rest == rest;
    if Wired(row, c) {
      NoteFirst(s, Finding(c.line, EntryOf(row, c, f)), rest);
    }
  }

  lemma RowFirst(row: Row, probe: Probe, f: nat, multi: bool)
    requires f < 8
    ensures var c := probe(row.bus, row.devfn / 8, f);
            var m := if f == 0 then Multi(c) else multi;
            RowFindings(row, probe, f, multi) ==
              (if Wired(row, c) then [Finding(c.line, EntryOf(row, c, f))] else [])
              + (if m then RowFindings(row, probe, f + 1, m) else [])
  {
    hide Wired, Multi;
  }

  lemma NoteFirst(s: State, x: Finding, rest: seq<Finding>)
    requires Proper(s)
    ensures NoteAll(s, [x] + rest) == NoteAll(Note(s, x), rest)
  {
    hide Note;
    assert ([x] + rest)[1..] == rest;
  }

  lemma NoneLeft(s: State, row: Row, probe: Probe, multi: bool)
    requires Proper(s)
    ensures RowFindings(row, probe, 8, multi) == [] && NoteAll(s, []) == s
  {
  }

  /** One IRQ tried. */
  lemma PickStep(t: seq<seq<Entry>>, bits: bv16, accepts: set<nat>, i: nat)
    requires |t| == NUM_IRQS && 0 < i <= NUM_IRQS
    ensures Pick(t, bits, accepts, i) ==
            if Free(t, bits, i - 1) && i - 1 in accepts then i - 1 else Pick(t, bits, accepts, i - 1)
  {
    hide Mask, Free;
  }

  lemma FreeIs(t: seq<seq<Entry>>, bits: bv16, i: nat)
    requires |t| == NUM_IRQS && i < NUM_IRQS
    ensures Free(t, bits, i) <==> Has(bits, Mask(i)) && t[i] == []
  {
    hide Mask;
  }

  lemma MaskStep(i: nat)
    requires 1 < i <= NUM_IRQS
    ensures Mask(i - 2) == Half(Mask(i - 1))
  {
  }

  lemma PickEnd(t: seq<seq<Entry>>, bits: bv16, accepts: set<nat>)
    requires |t| == NUM_IRQS
    ensures Pick(t, bits, accepts, 0) == NUM_IRQS && Mask(NUM_IRQS - 1) == 0x8000
  {
  }

  class Router {
    const pool: array<Link>
    const heads: array<nat>
    var used: nat
    var best: bv16
    ghost var slots: seq<seq<nat>>

    constructor ()
      ensures Valid() && fresh(pool) && fresh(heads)
      ensures Value() == State(seq(NUM_IRQS, i => []), 0)
    {
      pool := new Link[POOL_SIZE](_ => Link(Entry(0, 0, 0, 0), 0));
      heads := new nat[NUM_IRQS](_ => 0);
      used, best := 0, 0;
      slots := seq(NUM_IRQS, i => []);
      new;
      forall i | 0 <= i < NUM_IRQS
        ensures Value().chains[i] == []
      {
      }
    }

    ghost function Image(): Mem
      reads this, pool, heads
    {
      Mem(pool[..], heads[..], used)
    }

    ghost predicate Valid()
      reads this, pool, heads
    {
      Shaped(Image(), slots)
    }

    ghost function Value(): (r: State)
      requires Valid()
      reads this, pool, heads
      ensures Proper(r)
    {
      Meaning(Image(), slots)
    }

    method AllocFreeIrqLink() returns (n: nat)
      modifies this`used
      ensures n == (if old(used) >= POOL_SIZE - 1 then 0 else old(used) + 1)
      ensures used == (if n == 0 then old(used) else n)
    {
      if used >= POOL_SIZE - 1 {
        return 0;
      }
      used := used + 1;
      return used;
    }

    /** The memory once the head of `irq` is cleared. */
    ghost function Cleared(irq: nat): Mem
      reads this, pool, heads
      requires heads.Length == NUM_IRQS && irq < NUM_IRQS
    {
      Image().(heads := Image().heads[irq := 0])
    }

    /** Lets the link `after`, or the head of `irq` if that is 0, point to slot `n`. */
    method Hook(irq: nat, after: nat, n: nat)
      requires irq < heads.Length && after < pool.Length
      modifies pool, heads
      ensures heads[..] == if after == 0 then old(heads[..])[irq := n] else old(heads[..])
      ensures pool[..] == if after == 0 then old(pool[..]) else old(pool[..])[after := old(pool[after]).(next := n)]
    {
      if after == 0 {
        heads[irq] := n;
      } else {
        pool[after] := pool[after].(next := n);
      }
    }

    /** Puts a new link for `e` after the link `after`, or at the head of `irq` if `after` is
        0; whatever hung there before is no longer reached. */
    method AddIrqLink(irq: nat, after: nat, e: Entry) returns (ok: bool)
      requires irq < NUM_IRQS && pool.Length == POOL_SIZE && heads.Length == NUM_IRQS
      requires Shaped(if after == 0 then Cleared(irq) else Image(), slots)
      requires after == LastOf(slots[irq])
      modifies this`used, this`slots, pool, heads
      ensures Valid()
      ensures Value() == Append(Meaning(if after == 0 then old(Cleared(irq)) else old(Image()), old(slots)), irq, e)
      ensures ok == (old(used) < POOL_SIZE - 1)
    {
      hide Shaped, Meaning, LastOf, Append, Image, Cleared;
      ok := AddLink(irq, after, e, if after == 0 then Cleared(irq) else Image());
    }

    /** The same, said of the memory `m` without what hung there before. */
    method AddLink(irq: nat, after: nat, e: Entry, ghost m: Mem) returns (ok: bool)
      requires irq < NUM_IRQS && pool.Length == POOL_SIZE && heads.Length == NUM_IRQS
      requires Shaped(m, slots) && after == LastOf(slots[irq]) && m == if after == 0 then Cleared(irq) else Image()
      modifies this`used, this`slots, pool, heads
      ensures Shaped(Image(), slots) && Meaning(Image(), slots) == Append(Meaning(m, old(slots)), irq, e)
      ensures ok == (old(used) < POOL_SIZE - 1)
    {
      hide Shaped, Meaning, LastOf, Append, Linked;
      LinkPlace(m, slots, irq);
      if m.used < POOL_SIZE - 1 {
        LinkedAppends(m, slots, irq, e);
        slots := slots[irq := slots[irq] + [used + 1]];
      }
      var n := LinkUp(irq, after, e, m);
      hide Image, Cleared;
      ok := n != 0;
    }

    /** Takes a slot, hangs it in and fills it; 0 stands for no slot. */
    method LinkUp(irq: nat, after: nat, e: Entry, ghost m: Mem) returns (n: nat)
      requires irq < NUM_IRQS && pool.Length == POOL_SIZE && heads.Length == NUM_IRQS && after < POOL_SIZE
      requires m == (if after == 0 then Cleared(irq) else Image()) && used < POOL_SIZE
      requires if after == 0 then m.heads[irq] == 0 else m.pool[after].next == 0
      modifies `used, pool, heads
      ensures n == (if old(used) < POOL_SIZE - 1 then old(used) + 1 else 0) && m.used == old(used)
      ensures Image() == if n == 0 then m else Linked(m, irq, after, e)
    {
      n := AllocFreeIrqLink();
      Hook(irq, after, n);
      if n != 0 {
        pool[n] := pool[n].(entry := e);
      }
    }

    /** Whether some entry on `irq` matches. */
    method AnyMatch(irq: nat, e: Entry, full: bool) returns (found: bool)
      requires Valid() && irq < NUM_IRQS
      ensures found == Carries(Value().chains[irq], e, full)
    {
      ghost var m, c, es := Image(), slots[irq], Value().chains[irq];
      Walkable(m, slots, irq);
      hide Shaped, Meaning;
      ghost var j := 0;
      var cur := heads[irq];
      while cur != 0
        invariant 0 <= j <= |c| && cur == SlotAt(c, j)
        invariant forall k :: 0 <= k < j ==> !Matches(es[k], e, full)
        decreases |c| - j
      {
        assert StepAt(m, c, es, j);
        var x := pool[cur].entry;
        if x.link == e.link && (full ==> x.bus == e.bus && x.device == e.device && x.func == e.func) {
          assert Matches(es[j], e, full);
          return true;
        }
        cur, j := pool[cur].next, j + 1;
      }
      return false;
    }

    /** The lowest IRQ with a match; NUM_IRQS if there is none. */
    method FindIrq(e: Entry, full: bool) returns (irq: nat)
      requires Valid()
      ensures irq == Lookup(Value().chains, e, full, 0)
    {
      irq := 0;
      while irq < NUM_IRQS
        invariant 0 <= irq <= NUM_IRQS
        invariant forall k :: 0 <= k < irq ==> !Carries(Value().chains[k], e, full)
      {
        var found := AnyMatch(irq, e, full);
        if found {
          break;
        }
        irq := irq + 1;
      }
      LookupIs(Value().chains, e, full, 0, irq);
    }

    /** Puts a first link on an IRQ without any. */
    method AddFirst(irq: nat, e: Entry)
      requires Valid() && irq < NUM_IRQS && Value().chains[irq] == []
      modifies this`used, this`slots, pool, heads
      ensures Valid() && Value() == Append(old(Value()), irq, e)
    {
      Walkable(Image(), slots, irq);
      EmptyHead(Image(), slots, irq);
      hide Shaped, Meaning;
      assert Cleared(irq) == Image();
      var ok := AddIrqLink(irq, 0, e);
    }

    method Unused(irq: nat) returns (unused: bool)
      requires Valid() && irq < NUM_IRQS
      ensures unused <==> Value().chains[irq] == []
    {
      Walkable(Image(), slots, irq);
      EmptyHead(Image(), slots, irq);
      unused := heads[irq] == 0;
    }

    /** The highest free IRQ in `bits` that the BIOS accepts; NUM_IRQS if there is none. */
    method FindFree(bits: bv16, accepts: set<nat>) returns (irq: nat)
      requires Valid()
      ensures irq == Pick(Value().chains, bits, accepts, NUM_IRQS)
    {
      hide Append, Shaped, Meaning, Pick, Mask, Free, Has, Half;
      PickEnd(Value().chains, bits, accepts);
      var bit: bv16, i := 0x8000, NUM_IRQS;
      irq := NUM_IRQS;
      ghost var t := Value().chains;
      while i > 0
        invariant 0 <= i <= NUM_IRQS && irq == NUM_IRQS
        invariant i > 0 ==> bit == Mask(i - 1)
        invariant Pick(t, bits, accepts, i) == Pick(t, bits, accepts, NUM_IRQS)
      {
        irq := i - 1;
        PickStep(t, bits, accepts, i);
        FreeIs(t, bits, irq);
        if i > 1 {
          MaskStep(i);
        }
        var unused := Unused(irq);
        if Has(bits, bit) && unused && irq in accepts {
          break;
        }
        bit, i, irq := Half(bit), irq, NUM_IRQS;
      }
    }

    /** Maps that IRQ and records it. */
    method MapFresh(bits: bv16, accepts: set<nat>, e: Entry) returns (irq: nat)
      requires Valid()
      modifies this`used, this`slots, pool, heads
      ensures Valid() && irq == Pick(old(Value()).chains, bits, accepts, NUM_IRQS)
      ensures Value() == if irq < NUM_IRQS then Append(old(Value()), irq, e) else old(Value())
    {
      hide Append, Shaped, Meaning, Mask;
      irq := FindFree(bits, accepts);
      if irq < NUM_IRQS {
        AddFirst(irq, e);
      }
    }

    /** The lowest IRQ that has the entry, and failing that the lowest with its link. */
    method FindKnown(e: Entry) returns (irq: nat)
      requires Valid()
      ensures irq == Known(Value().chains, e)
    {
      hide Shaped, Meaning, Lookup;
      irq := FindIrq(e, true);
      if irq < NUM_IRQS {
        return;
      }
      irq := FindIrq(e, false);
    }

    /** An IRQ for the device at `loc`, from what is routed already or freshly mapped;
        NUM_IRQS for a refusal.  `count` is the room the caller has for answers. */
    method RequestIrqs(rows: seq<Row>, loc: Location, count: nat, a: Answers) returns (irq: nat)
      requires Valid()
      modifies this`used, this`slots, pool, heads
      ensures Valid()
      ensures count == 0 ==> irq == NUM_IRQS && Value() == old(Value())
      ensures count > 0 ==> irq == Granted(old(Value()).chains, rows, best, loc, a)
      ensures count > 0 ==> Value() == Request(old(Value()), rows, best, loc, a)
      ensures count > 0 ==> Routes(rows, loc, Wanted(rows, loc))
                            && Grants(old(Value()).chains, Wanted(rows, loc), best, loc, a, irq)
    {
      GrantedIs(Value().chains, rows, best, loc, a);
      hide Routes, Grants;
      hide Shaped, Meaning, Append, Wanted, Pick, Known, Carried, Granted, Request, EntryAt;
      if count < 1 {
        return NUM_IRQS;
      }
      RequestCases(Value(), rows, best, loc, a);
      var pin := FindPin(rows, loc);
      if pin.link == 0 {
        return NUM_IRQS;
      }
      var e := Entry(pin.link, loc.bus, loc.device, loc.func);
      irq := FindKnown(e);
      if irq < NUM_IRQS {
        return;
      }
      irq := MapFresh(best, a.exclusive, e);
      if irq < NUM_IRQS {
        return;
      }
      irq := MapFresh(pin.bits, a.possible, e);
    }

    // -----------------------------------------------------------------------
    // The scan
    // -----------------------------------------------------------------------

    /** Records a configured function, unless its IRQ's chain has it already. */
    method NoteEntry(irq: nat, e: Entry)
      requires Valid() && irq < NUM_IRQS
      modifies this`used, this`slots, pool, heads
      ensures Valid() && Value() == Note(old(Value()), Finding(irq, e))
    {
      ghost var m, c, es := Image(), slots[irq], Value().chains[irq];
      Walkable(m, slots, irq);
      EmptyHead(m, slots, irq);
      if heads[irq] == 0 {
        AddFirst(irq, e);
        return;
      }
      ghost var j := 0;
      var cur, found, end := heads[irq], false, false;
      while !found && !end
        invariant 0 <= j < |c| && cur == c[j]
        invariant found ==> e in es
        invariant !found ==> forall k :: 0 <= k < (if end then |c| else j) ==> es[k] != e
        invariant end ==> j + 1 == |c|
        decreases |c| - j, !found && !end
      {
        assert StepAt(m, c, es, j);
        if pool[cur].entry == e {
          found := true;
        }
        if pool[cur].next != 0 {
          cur, j := pool[cur].next, j + 1;
        } else {
          end := true;
        }
      }
      if !found {
        assert StepAt(m, c, es, j);
        var ok := AddIrqLink(irq, cur, e);
      }
    }

    /** Forgets all chains, then records every function of the rows' devices that the
        firmware configured. */
    method ScanConfiguredIrq(rows: seq<Row>, probe: Probe, exclusive: bv16)
      requires Valid()
      modifies this, pool, heads
      ensures Valid() && best == exclusive
      ensures Value() == Scan(old(Value()), rows, probe)
    {
      ghost var s0 := Value();
      ForgetAll();
      best := exclusive;
      var r := 0;
      while r < |rows|
        invariant 0 <= r <= |rows| && Valid() && best == exclusive
        invariant ScanRows(Value(), rows[r..], probe) == Scan(s0, rows, probe)
      {
        assert rows[r..][1..] == rows[r + 1..];
        ScanRow(rows[r], probe);
        r := r + 1;
      }
    }

    method ForgetAll()
      requires Valid()
      modifies this`slots, pool, heads
      ensures Valid() && Value() == State(seq(NUM_IRQS, i => []), old(Value()).used)
    {
      var i, n := 0, 0;
      while i < NUM_IRQS
        invariant 0 <= i <= NUM_IRQS && forall k :: 0 <= k < i ==> heads[k] == 0
      {
        heads[i] := 0;
        i := i + 1;
      }
      while n < POOL_SIZE
        invariant 0 <= n <= POOL_SIZE && forall k :: 0 <= k < NUM_IRQS ==> heads[k] == 0
        invariant forall k :: 0 <= k < n ==> pool[k].next == 0
      {
        pool[n] := Link(Entry(0, 0, 0, 0), 0);
        n := n + 1;
      }
      slots := seq(NUM_IRQS, i => []);
      assert Value().chains == seq(NUM_IRQS, i => []);
    }

    /** The functions of one row's device: only the first, unless it is a multi-function
        device. */
    method ScanRow(row: Row, probe: Probe)
      requires Valid()
      modifies this`used, this`slots, pool, heads
      ensures Valid() && Value() == NoteAll(old(Value()), RowFindings(row, probe, 0, false))
    {
      hide Shaped, Meaning, Note, NoteAll, RowFindings;
      var f, multi := 0, false;
      ghost var all := RowFindings(row, probe, 0, false);
      while f < 8
        invariant 0 <= f <= 8 && Valid() && (f > 0 ==> multi)
        invariant NoteAll(Value(), RowFindings(row, probe, f, multi)) == NoteAll(old(Value()), all)
      {
        NoneLeft(Value(), row, probe, multi);
        var c := probe(row.bus, row.devfn / 8, f);
        RowStep(Value(), row, probe, f, multi);
        if f == 0 {
          multi := c.header / 128 % 2 == 1;
        }
        if !c.valid {
          if f == 0 && !multi {
            return;
          }
        } else {
          if c.header % 128 <= 2 && c.line <= 15 {
            var link := PinOf(row, c.pin).link;
            if link != 0 {
              NoteEntry(c.line, Entry(link, row.bus, row.devfn / 8, f));
            }
          }
          if !multi {
            NoneLeft(Value(), row, probe, multi);
            return;
          }
        }
        f := f + 1;
      }
      NoneLeft(Value(), row, probe, multi);
    }

    // -----------------------------------------------------------------------
    // Moving a device to another IRQ
    // -----------------------------------------------------------------------

    /** The first link of the device on `irq`, 0 if it has none there, and whether other
        links share its chain. */
    method DeviceLink(irq: nat, loc: Location) returns (link: nat, shared: bool)
      requires Valid() && irq < NUM_IRQS
      ensures link != 0 <==> Holds(Value().chains[irq], loc)
      ensures link != 0 ==> (shared <==> |Value().chains[irq]| != 1)
    {
      ghost var m, c, es := Image(), slots[irq], Value().chains[irq];
      Walkable(m, slots, irq);
      hide Shaped, Meaning;
      ghost var j := 0;
      link := heads[irq];
      shared := false;
      while link != 0
        invariant 0 <= j <= |c| && link == SlotAt(c, j)
        invariant 0 < j < |c| ==> link != c[0]
        invariant forall k :: 0 <= k < j ==> !IsAt(es[k], loc)
        decreases |c| - j
      {
        assert StepAt(m, c, es, j);
        var x := pool[link].entry;
        if x.bus == loc.bus && x.device == loc.device && x.func == loc.func {
          assert IsAt(es[j], loc);
          shared := heads[irq] != link || pool[link].next != 0;
          return;
        }
        link, j := pool[link].next, j + 1;
      }
    }

    /** The lowest IRQ the device is on, NUM_IRQS for none, with its link there. */
    method FindHolder(loc: Location) returns (irq: nat, link: nat, shared: bool)
      requires Valid()
      ensures irq == Holder(Value().chains, loc, 0) && (link != 0 <==> irq < NUM_IRQS)
      ensures link != 0 ==> (shared <==> |Value().chains[irq]| != 1)
    {
      irq, link, shared := 0, 0, false;
      while irq < NUM_IRQS
        invariant 0 <= irq <= NUM_IRQS && link == 0
        invariant forall k :: 0 <= k < irq ==> !Holds(Value().chains[k], loc)
      {
        link, shared := DeviceLink(irq, loc);
        if link != 0 {
          break;
        }
        irq := irq + 1;
      }
      HolderIs(Value().chains, loc, 0, irq);
    }

    /** Makes a link for `e` the only one on `irq`. */
    method Overwrite(irq: nat, e: Entry)
      requires Valid() && irq < NUM_IRQS
      modifies this`used, this`slots, pool, heads
      ensures Valid()
      ensures Value() == Append(old(Value()).(chains := old(Value()).chains[irq := []]), irq, e)
    {
      Walkable(Image(), slots, irq);
      Dropped(Image(), slots, irq);
      slots := slots[irq := []];
      hide Shaped, Meaning;
      var ok := AddIrqLink(irq, 0, e);
    }

    /** The last link of a chain that is not empty. */
    method EndLink(irq: nat) returns (link: nat)
      requires Valid() && irq < NUM_IRQS && Value().chains[irq] != []
      ensures link == LastOf(slots[irq])
    {
      ghost var m, c, es := Image(), slots[irq], Value().chains[irq];
      Walkable(m, slots, irq);
      hide Shaped, Meaning;
      ghost var j := 0;
      link := heads[irq];
      assert StepAt(m, c, es, 0);
      while pool[link].next != 0
        invariant 0 <= j < |c| && link == c[j] < pool.Length
        decreases |c| - j
      {
        assert StepAt(m, c, es, j);
        link, j := pool[link].next, j + 1;
        assert StepAt(m, c, es, j);
      }
      assert StepAt(m, c, es, j);
    }

    /** Hangs the chain of `from` behind that of `to`, and tells where it begins. */
    method Rehang(from: nat, to: nat) returns (moved: nat)
      requires Valid() && from < NUM_IRQS && to < NUM_IRQS && from != to
      modifies this`slots, pool, heads
      ensures Valid() && used == old(used)
      ensures |slots| == |old(slots)| == NUM_IRQS && |slots[to]| == |Value().chains[to]|
      ensures |old(slots)[to]| == |old(Value()).chains[to]| <= |slots[to]|
      ensures moved == SlotAt(slots[to], |old(slots)[to]|)
      ensures var t := old(Value()).chains;
              Value() == State(t[to := t[to] + t[from]][from := []], old(Value()).used)
    {
      ghost var m := Image();
      Walkable(m, slots, to);
      EmptyHead(m, slots, to);
      Walkable(m, slots, from);
      RehungJoins(m, slots, from, to);
      assert SlotAt(Joined(slots, from, to)[to], |slots[to]|) == SlotAt(slots[from], 0);
      assert |Joined(slots, from, to)[to]| == |slots[to]| + |slots[from]|;
      assert |Joined(slots, from, to)| == NUM_IRQS;
      hide Shaped, Meaning, LastOf, Joined;
      if heads[to] != 0 {
        var last := EndLink(to);
        pool[last] := pool[last].(next := heads[from]);
      } else {
        heads[to] := heads[from];
      }
      moved := heads[from];
      heads[from] := 0;
      slots := Joined(slots, from, to);
      assert Image() == Rehung(m, old(slots), from, to);
    }

    /** Gives the entries on `irq` from the `n`-th on, whose link is `first`, a new link
        value. */
    method SetLinks(irq: nat, ghost n: nat, first: nat, link: nat)
      requires Valid() && irq < NUM_IRQS && n <= |slots[irq]| && first == SlotAt(slots[irq], n)
      modifies pool
      ensures Valid()
      ensures var t := old(Value()).chains;
              Value() == old(Value()).(chains := t[irq := RelabelPart(t[irq], n, |slots[irq]|, link)])
    {
      hide Shaped, Meaning, Target, RelabelPart;
      ChainSlots(Image(), slots, irq);
      ghost var c, t, j := slots[irq], Value().chains, n;
      var cur := first;
      TargetNothing(t, irq, n, link);
      while cur != 0
        invariant n <= j <= |c| == |t[irq]| && cur == SlotAt(c, j) && Valid()
        invariant Value() == old(Value()).(chains := Target(t, irq, n, j, link))
        decreases |c| - j
      {
        TargetNext(t, irq, n, j, link);
        SetLink(irq, j, cur, link);
        cur, j := pool[cur].next, j + 1;
      }
      TargetAll(t, irq, n, link);
    }

    /** The link value of the `j`-th entry of a chain, in slot `cur`. */
    method SetLink(irq: nat, ghost j: nat, cur: nat, link: nat)
      requires Valid() && irq < NUM_IRQS && j < |slots[irq]| && cur == slots[irq][j]
      modifies pool
      ensures Valid() && cur < pool.Length && pool[cur].next == SlotAt(slots[irq], j + 1)
      ensures |slots[irq]| == |old(Value()).chains[irq]| && (j + 1 < |slots[irq]| ==> slots[irq][j + 1] != 0)
      ensures var t := old(Value()).chains;
              Value() == old(Value()).(chains := t[irq := t[irq][j := t[irq][j].(link := link)]])
    {
      ghost var m := Image();
      ghost var es := Value().chains[irq];
      Walkable(m, slots, irq);
      assert StepAt(m, slots[irq], es, j);
      EntrySet(m, slots, irq, j, es[j].(link := link));
      hide Shaped, Meaning;
      pool[cur] := pool[cur].(entry := pool[cur].entry.(link := link));
      assert Image() == m.(pool := m.pool[cur := m.pool[cur].(entry := es[j].(link := link))]);
    }

    /** Moves a whole chain behind another one and gives what moved a new link value. */
    method Move(from: nat, to: nat, link: nat)
      requires Valid() && from < NUM_IRQS && to < NUM_IRQS && from != to
      modifies this`slots, pool, heads
      ensures Valid() && Value() == old(Value()).(chains := Moved(old(Value()).chains, from, to, link))
    {
      hide Shaped, Meaning;
      ghost var t := Value().chains;
      RelabelMoved(t[to], t[from], link);
      var moved := Rehang(from, to);
      assert Value().chains[to] == t[to] + t[from];
      SetLinks(to, |t[to]|, moved, link);
      assert Value().chains == Moved(t, from, to, link);
    }

    /** Puts the device on `irq`, with everything that shares its present IRQ; `bios` tells
        whether there is a BIOS to ask, `accepted` is its answer and `rows` the routing table
        as it leaves it. */
    method ConfigureIrq(rows: seq<Row>, loc: Location, irq: nat, force: bool, bios: bool, accepted: bool)
      returns (ok: bool)
      requires Valid()
      modifies this`used, this`slots, pool, heads
      ensures Valid() && Value() == Configure(old(Value()), rows, loc, irq, force, bios && accepted)
      ensures ok == (bios && (Configures(old(Value()), rows, loc, irq, force, accepted)
                              || (irq < NUM_IRQS && Holder(old(Value()).chains, loc, 0) == irq)))
    {
      hide Shaped, Meaning, Append, Wanted, Holder;
      if !bios || irq >= NUM_IRQS {
        return false;
      }
      var from, link, shared := FindHolder(loc);
      if link != 0 {
        if from == irq {
          return true;
        }
        if shared && !force {
          return false;
        }
      }
      if !accepted {
        return false;
      }
      var pin := FindPin(rows, loc);
      if pin.link == 0 {
        return false;
      }
      if link == 0 {
        Overwrite(irq, Entry(pin.link, loc.bus % 256, loc.device % 256, loc.func % 256));
      } else {
        Move(from, irq, pin.link);
      }
      return true;
    }
  }
}
