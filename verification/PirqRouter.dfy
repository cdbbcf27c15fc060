/** The tables in which the PIRQ assignment is kept, and the two loops that fill them. */
module PirqRouter {
  import opened PirqModel

  /** Sorts the lines by how many IRQs they can use; equals keep their order. */
  method SortLines(a: array<Line>)
    modifies a
    ensures Ascending(a[..]) && Reordered(old(a[..]), a[..])
  {
    var i := 1;
    while i < a.Length
      invariant 1 <= i && (a.Length > 0 ==> i <= a.Length)
      invariant Reordered(old(a[..]), a[..])
      invariant a.Length > 0 ==> Ascending(a[..i])
    {
      Insert(a, i);
      i := i + 1;
    }
    if a.Length > 0 {
      assert a[..i] == a[..];
    }
  }

  /** Moves the line at `i` down to its place among the sorted ones before it. */
  method Insert(a: array<Line>, i: nat)
    requires 0 < i < a.Length && Ascending(a[..i])
    modifies a
    ensures Ascending(a[..i + 1]) && Reordered(old(a[..]), a[..])
  {
    hide Ascending, Reordered, Inserted;
    ghost var b := a[..];
    var next := a[i];
    var j: int := i - 1;
    while j >= 0 && next.irqNums < a[j].irqNums
      invariant -1 <= j < i
      invariant forall m :: 0 <= m <= j + 1 && m < i ==> a[m] == b[m]
      invariant forall m :: j + 2 <= m <= i ==> a[m] == b[m - 1]
      invariant forall m :: i < m < a.Length ==> a[m] == b[m]
      invariant forall m :: j < m < i ==> next.irqNums < b[m].irqNums
      invariant j == i - 1 ==> a[i] == b[i]
    {
      a[j + 1] := a[j];
      j := j - 1;
    }
    a[j + 1] := next;
    InsertedIs(a[..], b, i, j + 1);
    assert j >= 0 ==> b[j].irqNums <= next.irqNums;
    InsertedIsSorted(b, i, j + 1);
  }

  /** `b` with the line at `i` moved down to `p`. */
  function Inserted(b: seq<Line>, i: nat, p: nat): (r: seq<Line>)
    requires p <= i < |b|
    ensures |r| == |b|
  {
    b[..p] + [b[i]] + b[p..i] + b[i + 1..]
  }

  lemma InsertedIs(c: seq<Line>, b: seq<Line>, i: nat, p: nat)
    requires p <= i < |b| == |c| && c[p] == b[i]
    requires forall m :: 0 <= m < p ==> c[m] == b[m]
    requires forall m :: p < m <= i ==> c[m] == b[m - 1]
    requires forall m :: i < m < |b| ==> c[m] == b[m]
    ensures c == Inserted(b, i, p)
  {
  }

  lemma InsertedIsSorted(b: seq<Line>, i: nat, p: nat)
    requires p <= i < |b| && Ascending(b[..i])
    requires p > 0 ==> b[p - 1].irqNums <= b[i].irqNums
    requires forall m :: p <= m < i ==> b[i].irqNums < b[m].irqNums
    ensures Ascending(Inserted(b, i, p)[..i + 1]) && Reordered(b, Inserted(b, i, p))
  {
    assert b == b[..p] + b[p..i] + [b[i]] + b[i + 1..];
    PassingReorders(b[..p], b[p..i], b[i], b[i + 1..]);
    InsertedAscends(b, i, p);
  }

  lemma InsertedAscends(b: seq<Line>, i: nat, p: nat)
    requires p <= i < |b| && Ascending(b[..i])
    requires p > 0 ==> b[p - 1].irqNums <= b[i].irqNums
    requires forall m :: p <= m < i ==> b[i].irqNums < b[m].irqNums
    ensures Ascending(Inserted(b, i, p)[..i + 1])
  {
    var c := Inserted(b, i, p);
    var d := c[..i + 1];
    forall m, n | 0 <= m < n < |d|
      ensures d[m].irqNums <= d[n].irqNums
    {
      var m', n' := if m < p then m else m - 1, if n < p then n else n - 1;
      assert m < p || m > p ==> c[m] == b[..i][m'];
      assert n < p || n > p ==> c[n] == b[..i][n'];
      assert p > 0 ==> b[..i][p - 1] == b[p - 1];
    }
  }

  /** Once all IRQs are passed the list holds all the line can use: it is empty if there are
      none, and else ends with the slot of the lowest. */
  lemma ScanEnds(s: State, t: Line, mem: seq<nat>, k: nat)
    requires Proper(s) && s.used < MAX_PIRQ && Highest(s, t, 15) == 0 && Scanned(s, t, 3, mem, k)
    ensures k == 0 <==> Lowest(t, 0) == 16
    ensures k > 0 ==> ListLength(s, t) == k
    ensures forall x :: 0 <= x < k ==> mem[x] == Listed(s, t, x)
  {
    hide Supports, Highest;
    if k == 0 {
      NoneAllowed(t, 0);
    } else {
      LowestIs(t, 0, s.slots[k - 1].irq);
      FindIs(s.slots, s.used, s.slots[k - 1].irq, 0, k - 1);
    }
  }

  /** One more entry of the list looked at. */
  lemma LeastStep(s: State, t: Line, j: nat)
    requires Proper(s) && s.used < MAX_PIRQ && j < s.used
    ensures SlotFor(s, t, j) <= s.used
    ensures Least(s, t, j + 1) ==
            if j > 0 && CountFor(s, t, Least(s, t, j)) <= CountFor(s, t, j) then Least(s, t, j) else j
  {
    hide SlotFor, Proper, Listed;
  }

  /** What the scan of the IRQs from 15 down has found once it has passed those from `j` up:
      all the line can use are taken; they are in the list at their slots, and the list ends
      with the slot of the lowest. */
  ghost predicate Scanned(s: State, t: Line, j: nat, mem: seq<nat>, k: nat) {
    && |mem| == 15 && k <= s.used <= MAX_PIRQ == |s.slots|
    && (forall x :: 0 <= x < 15 ==> mem[x] == (if x < s.used && s.slots[x].irq >= j then Listed(s, t, x) else 0))
    && (k == 0 ==> forall i :: j <= i < 16 ==> !Allowed(t, i))
    && (k > 0 ==>
          && j <= s.slots[k - 1].irq && Allowed(t, s.slots[k - 1].irq)
          && forall i :: j <= i < s.slots[k - 1].irq ==> !Allowed(t, i))
  }

  lemma ScannedNone(s: State, t: Line, mem: seq<nat>)
    requires Proper(s) && |mem| == 15 && forall x :: 0 <= x < 15 ==> mem[x] == 0
    ensures Scanned(s, t, 16, mem, 0)
  {
  }

  lemma ScannedSkip(s: State, t: Line, j: nat, mem: seq<nat>, k: nat)
    requires Scanned(s, t, j + 1, mem, k) && !Allowed(t, j)
    ensures Scanned(s, t, j, mem, k)
  {
  }

  lemma ScannedTaken(s: State, t: Line, j: nat, mem: seq<nat>, before: nat, k: nat)
    requires Proper(s) && Scanned(s, t, j + 1, mem, before) && Allowed(t, j) && k <= s.used < MAX_PIRQ &&
             s.slots[k].irq == j
    ensures Scanned(s, t, j, mem[k := j], k + 1)
  {
    hide Supports;
  }

  /** The IRQ `j` tried: it is the line's own, or somebody has it or the line cannot use it. */
  lemma HighestStep(s: State, t: Line, j: nat)
    requires Proper(s) && 3 <= j <= 15 && s.used < MAX_PIRQ
    ensures Taken(s, j) <==> Find(s.slots, s.used, j, 0) <= s.used
    ensures Highest(s, t, j) == if Allowed(t, j) && Find(s.slots, s.used, j, 0) > s.used then j
            else Highest(s, t, j - 1)
  {
    hide Supports;
  }

  lemma HighestEnd(s: State, t: Line)
    ensures Highest(s, t, 2) == 0
  {
  }

  class PirqTables {
    const given: array<Given>
    const slots: array<Slot>
    var used: nat

    ghost function Value(): State
      reads this, given, slots
    {
      State(given[..], slots[..], used)
    }

    /** The tables as the kernel clears them before it assigns anything. */
    constructor ()
      ensures fresh(given) && fresh(slots) && Startable(Value())
      ensures Value() == State(seq(MAX_PIRQ, i => Given(0, NONE)), seq(MAX_PIRQ, i => Slot(0, 0)), 0)
    {
      given := new Given[MAX_PIRQ](_ => Given(0, NONE));
      slots := new Slot[MAX_PIRQ](_ => Slot(0, 0));
      used := 0;
      new;
      assert given[..] == seq(MAX_PIRQ, i => Given(0, NONE));
      assert slots[..] == seq(MAX_PIRQ, i => Slot(0, 0));
    }

    /** The first slot that records the IRQ, up to the next one to be used; one more if none
        does. */
    method FindSlot(irq: nat) returns (k: nat)
      requires Proper(Value()) && used < MAX_PIRQ
      ensures k == Find(slots[..], used, irq, 0)
    {
      k := 0;
      while k <= used && slots[k].irq != irq
        invariant 0 <= k <= used + 1
        invariant Find(slots[..], used, irq, k) == Find(slots[..], used, irq, 0)
      {
        k := k + 1;
      }
    }

    /** Goes through the IRQs from 15 down to 3: a line gets the first one it can use that
        nobody has; the ones others have are listed at their slots. */
    method ScanIrqs(t: Line, mem: array<nat>) returns (own: nat, k: nat)
      requires Proper(Value()) && used < MAX_PIRQ && mem.Length == 15 && forall x :: 0 <= x < 15 ==> mem[x] == 0
      modifies mem
      ensures Value() == old(Value())
      ensures own == Highest(Value(), t, 15)
      ensures own == 0 ==> Scanned(Value(), t, 3, mem[..], k)
    {
      hide Highest, Listed, Scanned, Pow2, Find, Taken;
      ghost var s := Value();
      own, k := 0, 0;
      var j := 15;
      ScannedNone(s, t, mem[..]);
      while j >= 3
        invariant 2 <= j <= 15 && own == 0
        invariant Value() == s && Highest(s, t, 15) == Highest(s, t, j)
        invariant Scanned(s, t, j + 1, mem[..], k)
      {
        if t.irqs / Pow2(j) % 2 == 1 && j != 12 && j != 4 {
          var before := k;
          k := FindSlot(j);
          HighestStep(s, t, j);
          if k > used {
            own := j;
            break;
          }
          ScannedTaken(s, t, j, mem[..], before, k);
          mem[k] := j;
          k := k + 1;
        } else {
          HighestStep(s, t, j);
          ScannedSkip(s, t, j, mem[..], k);
        }
        j := j - 1;
      }
      HighestEnd(s, t);
    }

    /** Of the slots the list stands for, the first one given out least. */
    method LeastUsed(ghost t: Line, mem: array<nat>, k: nat) returns (irq: nat, last: nat)
      requires Proper(Value()) && used < MAX_PIRQ && 0 < k <= used && mem.Length == 15
      requires forall x :: 0 <= x < k ==> mem[x] == Listed(Value(), t, x)
      requires forall i :: 0 <= i < MAX_PIRQ ==> slots[i].count < 0xffff
      ensures last == SlotFor(Value(), t, Least(Value(), t, k)) && irq == slots[last].irq
    {
      hide Listed, Least, SlotFor;
      assert slots.Length == MAX_PIRQ;
      var min, j := 0xffff, 0;
      irq, last := 0, 0;
      while j < k
        invariant 0 <= j <= k
        invariant j == 0 ==> min == 0xffff
        invariant j > 0 ==> min == CountFor(Value(), t, Least(Value(), t, j))
        invariant j > 0 ==> last == SlotFor(Value(), t, Least(Value(), t, j))
        invariant j > 0 ==> irq == slots[last].irq
      {
        ghost var x := SlotFor(Value(), t, j);
        OnlySlot(Value(), t, j, mem[j]);
        LeastStep(Value(), t, j);
        var l := 0;
        while l <= used && !(mem[j] == slots[l].irq && min > slots[l].count)
          invariant 0 <= l <= used + 1 && (x < l ==> min <= slots[x].count)
        {
          l := l + 1;
        }
        if l <= used {
          irq, min, last := slots[l].irq, slots[l].count, l;
        }
        j := j + 1;
      }
    }

    /** Records an IRQ as the line's own. */
    method GiveOwn(t: Line, own: nat)
      requires Proper(Value()) && used < MAX_PIRQ && 1 <= t.pirq <= MAX_PIRQ
      modifies this`used, given, slots
      ensures var s := old(Value());
              Value() == State(s.given[t.pirq - 1 := Given(t.pirq, own)],
                               s.slots[s.used := Slot(own, s.slots[s.used].count + 1)], s.used + 1)
    {
      given[t.pirq - 1] := Given(t.pirq, own);
      slots[used] := Slot(own, slots[used].count + 1);
      used := used + 1;
    }

    /** Gives the line the IRQ of a slot that others share. */
    method GiveShared(t: Line, irq: nat, last: nat)
      requires Proper(Value()) && 1 <= t.pirq <= MAX_PIRQ && last < MAX_PIRQ
      modifies given, slots
      ensures var s := old(Value());
              Value() == State(s.given[t.pirq - 1 := Given(t.pirq, irq)],
                               s.slots[last := Slot(s.slots[last].irq, s.slots[last].count + 1)], s.used)
    {
      given[t.pirq - 1] := Given(t.pirq, irq);
      slots[last] := Slot(slots[last].irq, slots[last].count + 1);
    }

    /** The line's IRQs are all taken; those listed are offered for sharing. */
    method Share(t: Line, mem: array<nat>, k: nat)
      requires Proper(Value()) && used < MAX_PIRQ && NamedLine(t) && mem.Length == 15
      requires forall i :: 0 <= i < MAX_PIRQ ==> slots[i].count < 0xffff
      requires Highest(Value(), t, 15) == 0 && Scanned(Value(), t, 3, mem[..], k)
      modifies given, slots
      ensures Value() == Step(old(Value()), t)
    {
      ghost var s := Value();
      assert slots.Length == MAX_PIRQ;
      hide Highest, Lowest, Least, ListLength, Listed, SlotFor, Scanned, Proper, Step, NamedLine, Startable;
      StepSkips(s, t);
      ScanEnds(s, t, mem[..], k);
      if k > 0 {
        var irq, last := LeastUsed(t, mem, k);
        GiveShared(t, irq, last);
        StepShares(s, t, k);
      }
    }

    /** One line: its own IRQ, or a shared one, or nothing if it can use none. */
    method AssignLine(t: Line)
      requires Proper(Value()) && used < MAX_PIRQ && NamedLine(t)
      requires forall i :: 0 <= i < MAX_PIRQ ==> slots[i].count < 0xffff
      modifies this`used, given, slots
      ensures Value() == Step(old(Value()), t)
    {
      ghost var s := Value();
      assert slots.Length == MAX_PIRQ;
      hide Highest, Lowest, Least, ListLength, Listed, SlotFor, Scanned, Proper;
      var mem := new nat[15](_ => 0);
      var own, k := ScanIrqs(t, mem);
      assert Value() == s;
      if own != 0 {
        OwnIsAllowed(s, t);
        GiveOwn(t, own);
      } else {
        Share(t, mem, k);
      }
    }

    /** Every line, those with the fewest choices first; `ts` is the order they are served
        in. */
    method AssignIrqs(table: seq<Line>) returns (ghost ts: seq<Line>)
      requires |table| == MAX_PIRQ && Startable(Value()) && Named(table)
      modifies this`used, given, slots
      ensures Ascending(ts) && Reordered(table, ts) && Named(ts) && |ts| == MAX_PIRQ
      ensures Value() == After(old(Value()), ts, MAX_PIRQ)
    {
      var a := new Line[MAX_PIRQ](i requires 0 <= i < MAX_PIRQ => table[i]);
      assert a[..] == table;
      SortLines(a);
      ts := a[..];
      NamedStays(table, ts);
      hide Ascending, Reordered, Highest, Lowest, Least, ListLength, Proper, Step;
      ghost var s := Value();
      var i := 0;
      while i < MAX_PIRQ
        invariant 0 <= i <= MAX_PIRQ && a[..] == ts && Value() == After(s, ts, i)
      {
        assert NamedLine(ts[i]);
        AssignLine(a[i]);
        i := i + 1;
      }
    }
  }

  lemma StepSkips(s: State, t: Line)
    requires Proper(s) && s.used < MAX_PIRQ && NamedLine(t) && Highest(s, t, 15) == 0
    ensures Lowest(t, 0) == 16 ==> Step(s, t) == s
  {
    hide Highest, Lowest, Least, ListLength, SlotFor;
  }

  /** A line's step when it must share. */
  lemma StepShares(s: State, t: Line, k: nat)
    requires Proper(s) && s.used < MAX_PIRQ && NamedLine(t) && Highest(s, t, 15) == 0
    requires Lowest(t, 0) < 16 && k == ListLength(s, t)
    ensures 1 <= t.pirq <= MAX_PIRQ && SlotFor(s, t, Least(s, t, k)) < MAX_PIRQ == |s.slots| == |s.given|
    ensures var x := SlotFor(s, t, Least(s, t, k));
            Step(s, t) == State(s.given[t.pirq - 1 := Given(t.pirq, s.slots[x].irq)],
                                s.slots[x := Slot(s.slots[x].irq, s.slots[x].count + 1)], s.used)
  {
    hide Highest, Lowest, Least, ListLength, SlotFor;
  }

  lemma OwnIsAllowed(s: State, t: Line)
    requires Highest(s, t, 15) != 0
    ensures Lowest(t, 0) < 16
  {
  }

  lemma {:induction false} NoneAllowed(t: Line, j: nat)
    requires j <= 16 && forall i :: 3 <= i < 16 ==> !Allowed(t, i)
    ensures Lowest(t, j) == 16
    decreases 16 - j
  {
    if j < 16 {
      NoneAllowed(t, j + 1);
    }
  }

  lemma {:induction false} LowestIs(t: Line, j: nat, r: nat)
    requires j <= r < 16 && Allowed(t, r) && forall i :: j <= i < r ==> !Allowed(t, i)
    ensures Lowest(t, j) == r
    decreases r - j
  {
    if j < r {
      LowestIs(t, j + 1, r);
    }
  }

  lemma {:induction false} FindIs(slots: seq<Slot>, used: nat, irq: nat, k: nat, r: nat)
    requires k <= r <= used < |slots| && slots[r].irq == irq
    requires forall i :: k <= i < r ==> slots[i].irq != irq
    ensures Find(slots, used, irq, k) == r
    decreases r - k
  {
    if k < r {
      FindIs(slots, used, irq, k + 1, r);
    }
  }

  /** Among the slots up to the next one to be used, an entry of the list names just one. */
  lemma OnlySlot(s: State, t: Line, j: nat, m: nat)
    requires Proper(s) && s.used < MAX_PIRQ && j <= s.used && m == Listed(s, t, j)
    ensures forall l :: 0 <= l <= s.used ==> (s.slots[l].irq == m <==> l == SlotFor(s, t, j))
  {
  }

  lemma NamedStays(a: seq<Line>, b: seq<Line>)
    requires Reordered(a, b) && Named(a)
    ensures Named(b)
  {
    forall i | 0 <= i < |b|
      ensures NamedLine(b[i])
    {
      ReorderedKeepsAll(a, b, b[i]);
      assert multiset(b)[b[i]] > 0;
      assert b[i] in a;
    }
  }
}
