/** Which IRQ each PCI interrupt line (PIRQ) is given: the lines with the fewest choices
    first, each the highest IRQ nobody has yet, and only then one that is shared. */
module PirqModel {

  const MAX_PIRQ: nat := 8
  const NONE: nat := 0xff

  /** A line, how many IRQs it can use and which, one bit each. */
  datatype Line = Line(pirq: nat, irqNums: nat, irqs: nat)

  /** An IRQ that was given out, and to how many lines. */
  datatype Slot = Slot(irq: nat, count: nat)

  /** What a line got. */
  datatype Given = Given(pirq: nat, irq: nat)

  datatype State = State(given: seq<Given>, slots: seq<Slot>, used: nat)

  // ---------------------------------------------------------------------------
  // The order of the lines
  // ---------------------------------------------------------------------------

  ghost predicate Ascending(a: seq<Line>) {
    forall i, j :: 0 <= i < j < |a| ==> a[i].irqNums <= a[j].irqNums
  }

  /** The lines with `n` IRQs, in order. */
  ghost function WithNums(a: seq<Line>, n: nat): seq<Line> {
    if a == [] then [] else (if a[0].irqNums == n then [a[0]] else []) + WithNums(a[1..], n)
  }

  /** `b` has the lines of `a`, and lines with equally many IRQs in the same order. */
  ghost predicate Reordered(a: seq<Line>, b: seq<Line>) {
    |a| == |b| && forall n: nat :: WithNums(a, n) == WithNums(b, n)
  }

  lemma {:induction false} WithNumsJoin(a: seq<Line>, b: seq<Line>, n: nat)
    ensures WithNums(a + b, n) == WithNums(a, n) + WithNums(b, n)
  {
    if a == [] {
      assert a + b == b;
    } else {
      hide WithNums;
      assert (a + b)[1..] == a[1..] + b;
      WithNumsFirst(a, n);
      WithNumsFirst(a + b, n);
      WithNumsJoin(a[1..], b, n);
    }
  }

  lemma WithNumsFirst(a: seq<Line>, n: nat)
    requires a != []
    ensures WithNums(a, n) == (if a[0].irqNums == n then [a[0]] else []) + WithNums(a[1..], n)
  {
  }

  lemma {:induction false} NoneWithNums(a: seq<Line>, n: nat)
    requires forall i :: 0 <= i < |a| ==> a[i].irqNums != n
    ensures WithNums(a, n) == []
  {
    if a != [] {
      NoneWithNums(a[1..], n);
    }
  }

  /** A line may pass others that have more IRQs. */
  lemma PassingReorders(x: seq<Line>, y: seq<Line>, next: Line, z: seq<Line>)
    requires forall i :: 0 <= i < |y| ==> y[i].irqNums > next.irqNums
    ensures Reordered(x + y + [next] + z, x + [next] + y + z)
  {
    forall n: nat
      ensures WithNums(x + y + [next] + z, n) == WithNums(x + [next] + y + z, n)
    {
      WithNumsJoin(x + y + [next], z, n);
      WithNumsJoin(x + y, [next], n);
      WithNumsJoin(x, y, n);
      WithNumsJoin(x + [next] + y, z, n);
      WithNumsJoin(x + [next], y, n);
      WithNumsJoin(x, [next], n);
      if n == next.irqNums {
        NoneWithNums(y, n);
      } else {
        NoneWithNums([next], n);
      }
    }
  }

  /** Lines reordered are the same lines. */
  lemma {:induction false} ReorderedKeepsAll(a: seq<Line>, b: seq<Line>, x: Line)
    requires Reordered(a, b)
    ensures multiset(a)[x] == multiset(b)[x]
  {
    CountWith(a, x);
    CountWith(b, x);
  }

  lemma {:induction false} CountWith(a: seq<Line>, x: Line)
    ensures multiset(a)[x] == multiset(WithNums(a, x.irqNums))[x]
  {
    if a != [] {
      assert a == [a[0]] + a[1..];
      CountWith(a[1..], x);
    }
  }

  // ---------------------------------------------------------------------------
  // One line
  // ---------------------------------------------------------------------------

  function Pow2(j: nat): (r: nat)
    ensures r > 0
  {
    if j == 0 then 1 else 2 * Pow2(j - 1)
  }

  predicate Supports(irqs: nat, j: nat) { irqs / Pow2(j) % 2 == 1 }

  /** IRQ 4 is for COM1 and 12 for the PS/2 mouse; the first three are the system's. */
  predicate Allowed(t: Line, j: nat) {
    3 <= j <= 15 && j != 4 && j != 12 && Supports(t.irqs, j)
  }

  /** The first slot up to `used` that records `irq`; one more if none does. */
  function Find(slots: seq<Slot>, used: nat, irq: nat, k: nat): (r: nat)
    requires k <= used + 1 <= |slots|
    ensures k <= r <= used + 1
    ensures r <= used ==> slots[r].irq == irq
    ensures forall i :: k <= i < r ==> slots[i].irq != irq
    decreases used + 1 - k
  {
    if k == used + 1 || slots[k].irq == irq then k else Find(slots, used, irq, k + 1)
  }

  ghost predicate Taken(s: State, irq: nat) {
    exists k :: 0 <= k < s.used && k < |s.slots| && s.slots[k].irq == irq
  }

  /** The highest IRQ up to `j` the line can have to itself; 0 if there is none. */
  ghost function Highest(s: State, t: Line, j: nat): (r: nat)
    ensures r <= j && (r != 0 ==> Allowed(t, r) && !Taken(s, r))
    ensures forall i :: r < i <= j ==> Allowed(t, i) ==> Taken(s, i)
  {
    if j == 0 then 0
    else if Allowed(t, j) && !Taken(s, j) then j
    else Highest(s, t, j - 1)
  }

  /** The lowest IRQ from `j` on the line can use; 16 if there is none. */
  ghost function Lowest(t: Line, j: nat): (r: nat)
    requires j <= 16
    ensures j <= r <= 16 && (r < 16 ==> Allowed(t, r))
    ensures forall i :: j <= i < r ==> !Allowed(t, i)
    decreases 16 - j
  {
    if j == 16 || Allowed(t, j) then j else Lowest(t, j + 1)
  }

  /** The slots record different IRQs that lines may use, at least once each; the others
      are clear but for the count of the next one. */
  ghost predicate Proper(s: State) {
    && |s.given| == |s.slots| == MAX_PIRQ && s.used <= MAX_PIRQ
    && (forall i, j :: 0 <= i < j < s.used ==> s.slots[i].irq != s.slots[j].irq)
    && (forall i :: 0 <= i < s.used ==> 3 <= s.slots[i].irq <= 15 && s.slots[i].irq != 4 && s.slots[i].irq != 12)
    && (forall i :: 0 <= i < s.used ==> 0 < s.slots[i].count)
    && (forall i :: s.used <= i < MAX_PIRQ ==> s.slots[i].irq == 0)
  }

  /** What the list of taken IRQs holds at `x`: the IRQ of slot `x` if the line could use
      it, and 0 otherwise. */
  ghost function Listed(s: State, t: Line, x: nat): nat {
    if x < s.used && x < |s.slots| && Allowed(t, s.slots[x].irq) then s.slots[x].irq else 0
  }

  /** The slot that entry stands for: a 0 stands for the slot not used yet. */
  ghost function SlotFor(s: State, t: Line, x: nat): (r: nat)
    requires x <= s.used
    ensures r <= s.used
  {
    if Listed(s, t, x) != 0 then x else s.used
  }

  ghost function CountFor(s: State, t: Line, x: nat): nat
    requires Proper(s) && s.used < MAX_PIRQ && x <= s.used
  {
    s.slots[SlotFor(s, t, x)].count
  }

  /** The first entry below `n` whose slot was given out least. */
  ghost function Least(s: State, t: Line, n: nat): (r: nat)
    requires Proper(s) && s.used < MAX_PIRQ && 0 < n <= s.used
    ensures r < n
    ensures forall x :: 0 <= x < n ==> CountFor(s, t, r) <= CountFor(s, t, x)
    ensures forall x :: 0 <= x < r ==> CountFor(s, t, r) < CountFor(s, t, x)
  {
    if n == 1 then 0
    else
      var r := Least(s, t, n - 1);
      if CountFor(s, t, n - 1) < CountFor(s, t, r) then n - 1 else r
  }

  /** The length of the list: it ends with the slot of the lowest IRQ the line can use. */
  ghost function ListLength(s: State, t: Line): (r: nat)
    requires Proper(s) && s.used < MAX_PIRQ && Highest(s, t, 15) == 0 && Lowest(t, 0) < 16
    ensures 0 < r <= s.used && s.slots[r - 1].irq == Lowest(t, 0)
  {
    assert Taken(s, Lowest(t, 0));
    Find(s.slots, s.used, Lowest(t, 0), 0) + 1
  }

  ghost function Step(s: State, t: Line): (r: State)
    requires Proper(s) && s.used < MAX_PIRQ && (Lowest(t, 0) < 16 ==> 1 <= t.pirq <= MAX_PIRQ)
  {
    var j := Highest(s, t, 15);
    if j != 0 then
      State(s.given[t.pirq - 1 := Given(t.pirq, j)],
            s.slots[s.used := Slot(j, s.slots[s.used].count + 1)], s.used + 1)
    else if Lowest(t, 0) == 16 then s
    else
      var x := SlotFor(s, t, Least(s, t, ListLength(s, t)));
      State(s.given[t.pirq - 1 := Given(t.pirq, s.slots[x].irq)],
            s.slots[x := Slot(s.slots[x].irq, s.slots[x].count + 1)], s.used)
  }

  lemma StepKeepsProper(s: State, t: Line)
    requires Proper(s) && s.used < MAX_PIRQ && (Lowest(t, 0) < 16 ==> 1 <= t.pirq <= MAX_PIRQ)
    ensures Proper(Step(s, t)) && Step(s, t).used <= s.used + 1
  {
    hide Highest, Lowest, ListLength, Least, Listed, Supports, Proper;
    assert |s.given| == |s.slots| == MAX_PIRQ by { SlotsOf(s); }
    var j := Highest(s, t, 15);
    if j != 0 {
      OwnKeepsProper(s, j, s.given[t.pirq - 1 := Given(t.pirq, j)]);
    } else if Lowest(t, 0) < 16 {
      var x := SlotFor(s, t, Least(s, t, ListLength(s, t)));
      SharedKeepsProper(s, x, s.given[t.pirq - 1 := Given(t.pirq, s.slots[x].irq)]);
    }
  }

  lemma SlotsOf(s: State)
    requires Proper(s)
    ensures |s.given| == |s.slots| == MAX_PIRQ
  {
  }

  lemma OwnKeepsProper(s: State, j: nat, given: seq<Given>)
    requires Proper(s) && s.used < MAX_PIRQ && |given| == MAX_PIRQ && |s.slots| == MAX_PIRQ
    requires 3 <= j <= 15 && j != 4 && j != 12 && !Taken(s, j)
    ensures Proper(State(given, s.slots[s.used := Slot(j, s.slots[s.used].count + 1)], s.used + 1))
  {
  }

  lemma SharedKeepsProper(s: State, x: nat, given: seq<Given>)
    requires Proper(s) && x < MAX_PIRQ && |given| == MAX_PIRQ && |s.slots| == MAX_PIRQ
    ensures Proper(State(given, s.slots[x := Slot(s.slots[x].irq, s.slots[x].count + 1)], s.used))
  {
  }

  /** What one line gets: the highest IRQ nobody has if there is one, and else, when it can
      use any, a shared one.  The shared one is an IRQ the line can use unless some entry of
      the list is a 0 whose slot was given out no more than the entries after it and less
      than those before it: the line then gets IRQ 0. */
  lemma GivenToLine(s: State, t: Line)
    requires Proper(s) && s.used < MAX_PIRQ && 1 <= t.pirq <= MAX_PIRQ
    ensures var r := Step(s, t).given[t.pirq - 1];
            var free := Highest(s, t, 15);
            && (free != 0 ==> r == Given(t.pirq, free))
            && (free == 0 && Lowest(t, 0) == 16 ==> Step(s, t) == s)
            && (free == 0 && Lowest(t, 0) < 16 ==>
                  && r.pirq == t.pirq && (Allowed(t, r.irq) || r.irq == 0)
                  && (r.irq == 0 <==> exists h :: 0 <= h < ListLength(s, t) && ZeroWins(s, t, h)))
  {
    hide Highest, Lowest;
    if Highest(s, t, 15) == 0 && Lowest(t, 0) < 16 {
      ZeroWinsIff(s, t);
    }
  }

  lemma ZeroWinsIff(s: State, t: Line)
    requires Proper(s) && s.used < MAX_PIRQ && Highest(s, t, 15) == 0 && Lowest(t, 0) < 16
    ensures Listed(s, t, Least(s, t, ListLength(s, t))) == 0 <==>
            exists h :: 0 <= h < ListLength(s, t) && ZeroWins(s, t, h)
  {
    var x := Least(s, t, ListLength(s, t));
    if Listed(s, t, x) == 0 {
      LeastZeroWins(s, t);
    } else {
      forall h | 0 <= h < ListLength(s, t)
        ensures !ZeroWins(s, t, h)
      {
        LeastBeatsZero(s, t, h);
      }
    }
  }

  lemma LeastZeroWins(s: State, t: Line)
    requires Proper(s) && s.used < MAX_PIRQ && Highest(s, t, 15) == 0 && Lowest(t, 0) < 16
    requires Listed(s, t, Least(s, t, ListLength(s, t))) == 0
    ensures ZeroWins(s, t, Least(s, t, ListLength(s, t)))
  {
    assert |s.slots| == MAX_PIRQ;
    hide Highest, Lowest, ListLength, Least, Listed, Proper;
    var n := ListLength(s, t);
    var x := Least(s, t, n);
    forall i | 0 <= i < n && Listed(s, t, i) != 0
      ensures i < x ==> s.slots[s.used].count < s.slots[i].count
      ensures s.slots[s.used].count <= s.slots[i].count
    {
      assert CountFor(s, t, x) <= CountFor(s, t, i);
      assert i < x ==> CountFor(s, t, x) < CountFor(s, t, i);
    }
  }

  lemma LeastBeatsZero(s: State, t: Line, h: nat)
    requires Proper(s) && s.used < MAX_PIRQ && Highest(s, t, 15) == 0 && Lowest(t, 0) < 16
    requires h < ListLength(s, t) && Listed(s, t, Least(s, t, ListLength(s, t))) != 0
    ensures !ZeroWins(s, t, h)
  {
    assert |s.slots| == MAX_PIRQ;
    hide Highest, Lowest, ListLength, Least, Listed, Proper;
    var x := Least(s, t, ListLength(s, t));
    assert CountFor(s, t, x) <= CountFor(s, t, h);
    assert h < x ==> CountFor(s, t, x) < CountFor(s, t, h);
  }

  /** Entry `h` of the list is a 0, and its slot is the first one given out least. */
  ghost predicate ZeroWins(s: State, t: Line, h: nat)
    requires Proper(s) && s.used < MAX_PIRQ && Highest(s, t, 15) == 0 && Lowest(t, 0) < 16
    requires h < ListLength(s, t)
  {
    && Listed(s, t, h) == 0
    && (forall x :: 0 <= x < h ==> Listed(s, t, x) != 0 ==> s.slots[s.used].count < s.slots[x].count)
    && (forall x :: h < x < ListLength(s, t) ==> Listed(s, t, x) != 0 ==> s.slots[s.used].count <= s.slots[x].count)
  }

  // ---------------------------------------------------------------------------
  // All lines, in order
  // ---------------------------------------------------------------------------

  ghost predicate Startable(s: State) {
    Proper(s) && s.used == 0 && forall i :: 0 <= i < MAX_PIRQ ==> s.slots[i].count == 0
  }

  /** A line that can use some IRQ is one of the eight. */
  ghost predicate Named(ts: seq<Line>) {
    forall i :: 0 <= i < |ts| ==> NamedLine(ts[i])
  }

  ghost predicate NamedLine(t: Line) { Lowest(t, 0) < 16 ==> 1 <= t.pirq <= MAX_PIRQ }

  /** The state after the first `n` lines. */
  ghost function After(s: State, ts: seq<Line>, n: nat): (r: State)
    requires Startable(s) && Named(ts) && n <= |ts| <= MAX_PIRQ
    ensures Proper(r) && r.used <= n
    ensures forall i :: 0 <= i < MAX_PIRQ ==> r.slots[i].count <= n
  {
    hide Highest, Least, ListLength;
    if n == 0 then s
    else
      assert NamedLine(ts[n - 1]);
      var u := After(s, ts, n - 1);
      StepKeepsProper(u, ts[n - 1]);
      Step(u, ts[n - 1])
  }

  lemma {:induction false} TakenStays(s: State, ts: seq<Line>, i: nat, j: nat, irq: nat)
    requires Startable(s) && Named(ts) && i <= j <= |ts| <= MAX_PIRQ
    requires Taken(After(s, ts, i), irq)
    ensures Taken(After(s, ts, j), irq)
    decreases j
  {
    hide *;
    if i < j {
      TakenStays(s, ts, i, j - 1, irq);
      AfterNext(s, ts, j);
      StepKeepsTaken(After(s, ts, j - 1), ts[j - 1], irq);
    }
  }

  lemma StepKeepsTaken(s: State, t: Line, irq: nat)
    requires Proper(s) && s.used < MAX_PIRQ && NamedLine(t) && Taken(s, irq)
    ensures Taken(Step(s, t), irq)
  {
    hide Highest, Least, ListLength;
    var k :| 0 <= k < s.used && s.slots[k].irq == irq;
    assert Step(s, t).slots[k].irq == irq;
  }

  /** No two lines are given the same IRQ as their own. */
  lemma OwnIrqsDiffer(s: State, ts: seq<Line>, i: nat, j: nat)
    requires Startable(s) && Named(ts) && i < j < |ts| <= MAX_PIRQ
    requires Highest(After(s, ts, i), ts[i], 15) != 0
    ensures Highest(After(s, ts, i), ts[i], 15) != Highest(After(s, ts, j), ts[j], 15)
  {
    hide Least, ListLength, Startable, After, Lowest;
    var u, irq := After(s, ts, i), Highest(After(s, ts, i), ts[i], 15);
    AfterNext(s, ts, i + 1);
    assert Step(u, ts[i]).slots[u.used].irq == irq;
    TakenStays(s, ts, i + 1, j, irq);
  }

  lemma AfterNext(s: State, ts: seq<Line>, j: nat)
    requires Startable(s) && Named(ts) && 0 < j <= |ts| <= MAX_PIRQ
    ensures NamedLine(ts[j - 1]) && After(s, ts, j) == Step(After(s, ts, j - 1), ts[j - 1])
  {
    hide Step, Highest, Lowest;
    assert Named(ts) && 0 <= j - 1 < |ts|;
  }

  /** A line keeps what it was given, if no other line bears its name. */
  lemma {:induction false} GivenStays(s: State, ts: seq<Line>, i: nat, j: nat)
    requires Startable(s) && Named(ts) && i < j <= |ts| <= MAX_PIRQ && 1 <= ts[i].pirq <= MAX_PIRQ
    requires forall k :: 0 <= k < |ts| && k != i ==> ts[k].pirq != ts[i].pirq
    ensures After(s, ts, j).given[ts[i].pirq - 1] == Step(After(s, ts, i), ts[i]).given[ts[i].pirq - 1]
    decreases j
  {
    hide *;
    AfterNext(s, ts, j);
    AfterNext(s, ts, i + 1);
    if i < j - 1 {
      GivenStays(s, ts, i, j - 1);
      OthersKeep(After(s, ts, j - 1), ts[j - 1], ts[i].pirq);
    }
  }

  lemma OthersKeep(s: State, t: Line, pirq: nat)
    requires Proper(s) && s.used < MAX_PIRQ && NamedLine(t) && 1 <= pirq <= MAX_PIRQ && t.pirq != pirq
    ensures |Step(s, t).given| == MAX_PIRQ && Step(s, t).given[pirq - 1] == s.given[pirq - 1]
  {
    hide Highest, Least, ListLength;
  }

  /** While the next slot was never shared out, a line that must share gets IRQ 0 exactly
      when an IRQ it cannot use was given out before the lowest one it can. */
  lemma ZeroIffUnusableBefore(s: State, t: Line)
    requires Proper(s) && s.used < MAX_PIRQ && 1 <= t.pirq <= MAX_PIRQ && s.slots[s.used].count == 0
    requires Highest(s, t, 15) == 0 && Lowest(t, 0) < 16
    ensures Step(s, t).given[t.pirq - 1].irq == 0 <==>
            exists h :: 0 <= h < ListLength(s, t) && !Allowed(t, s.slots[h].irq)
  {
    GivenToLine(s, t);
    hide Highest, Lowest, Step, Supports;
    forall h | 0 <= h < ListLength(s, t)
      ensures ZeroWins(s, t, h) <==> !Allowed(t, s.slots[h].irq)
    {
    }
  }

  /** Such a case: lines 2 and 3 can only use IRQ 14, line 1 only 15.  Line 3 gets IRQ 0. */
  lemma ThirdLineGetsZero(s: State)
    requires Startable(s)
    ensures var ts := [Line(1, 1, 0x8000), Line(2, 1, 0x4000), Line(3, 1, 0x4000)];
            Named(ts) && After(s, ts, 3).given[2] == Given(3, 0)
  {
    var t1, t2, t3 := Line(1, 1, 0x8000), Line(2, 1, 0x4000), Line(3, 1, 0x4000);
    var ts := [t1, t2, t3];
    OnlyBit(t1, 15);
    OnlyBit(t2, 14);
    OnlyBit(t3, 14);
    OnlyChoice(t1, 15);
    OnlyChoice(t2, 14);
    OnlyChoice(t3, 14);
    assert Named(ts) by { hide Supports; assert NamedLine(t1) && NamedLine(t2) && NamedLine(t3); }
    hide *;
    AfterNext(s, ts, 1);
    AfterNext(s, ts, 2);
    AfterNext(s, ts, 3);
    NoneYet(s, ts);
    OwnChoice(s, t1, 15);
    OwnChoice(After(s, ts, 1), t2, 14);
    SharedChoice(After(s, ts, 2), t3);
  }

  lemma NoneYet(s: State, ts: seq<Line>)
    requires Startable(s) && Named(ts) && |ts| <= MAX_PIRQ
    ensures Proper(s) && After(s, ts, 0) == s && s.used == 0 && s.slots[1].count == s.slots[2].count == 0
  {
  }

  ghost predicate Only(t: Line, j: nat) { forall i :: Allowed(t, i) <==> i == j }

  lemma OnlyChoice(t: Line, j: nat)
    requires 14 <= j <= 15 && forall i :: 0 <= i <= 15 ==> (Supports(t.irqs, i) <==> i == j)
    ensures Only(t, j) && Lowest(t, 0) == j
  {
    hide Supports;
    assert Allowed(t, j);
    var r := Lowest(t, 0);
    assert r < 16 && Allowed(t, r);
  }

  lemma OwnChoice(s: State, t: Line, j: nat)
    requires Proper(s) && s.used < MAX_PIRQ && Only(t, j) && 14 <= j <= 15 && NamedLine(t) && 1 <= t.pirq <= MAX_PIRQ
    requires forall k :: 0 <= k < s.used ==> s.slots[k].irq != j
    ensures var u := Step(s, t);
            u.used == s.used + 1 && u.slots == s.slots[s.used := Slot(j, s.slots[s.used].count + 1)]
  {
    hide Supports, Allowed;
    assert !Taken(s, j);
  }

  lemma SharedChoice(s: State, t: Line)
    requires Proper(s) && s.used == 2 && Only(t, 14) && NamedLine(t) && 1 <= t.pirq <= MAX_PIRQ
    requires s.slots[0].irq == 15 && s.slots[1].irq == 14 && s.slots[2].count == 0
    ensures Step(s, t).given[t.pirq - 1] == Given(t.pirq, 0)
  {
    hide Supports;
    assert Taken(s, 14) && Allowed(t, 14);
    assert Highest(s, t, 15) == 0;
    ZeroIffUnusableBefore(s, t);
    GivenToLine(s, t);
    assert !Allowed(t, s.slots[0].irq);
  }

  lemma OnlyBit(t: Line, j: nat)
    requires (j == 15 && t.irqs == 0x8000) || (j == 14 && t.irqs == 0x4000)
    ensures forall i :: 0 <= i <= 15 ==> (Supports(t.irqs, i) <==> i == j)
  {
    Powers();
    hide Pow2;
    forall i | 0 <= i <= 15
      ensures Supports(t.irqs, i) <==> i == j
    {
      if i < 8 {
        assert i == 0 || i == 1 || i == 2 || i == 3 || i == 4 || i == 5 || i == 6 || i == 7;
      } else {
        assert i == 8 || i == 9 || i == 10 || i == 11 || i == 12 || i == 13 || i == 14 || i == 15;
      }
    }
  }

  lemma Powers()
    ensures Pow2(0) == 1 && Pow2(1) == 2 && Pow2(2) == 4 && Pow2(3) == 8
    ensures Pow2(4) == 0x10 && Pow2(5) == 0x20 && Pow2(6) == 0x40 && Pow2(7) == 0x80
    ensures Pow2(8) == 0x100 && Pow2(9) == 0x200 && Pow2(10) == 0x400 && Pow2(11) == 0x800
    ensures Pow2(12) == 0x1000 && Pow2(13) == 0x2000 && Pow2(14) == 0x4000 && Pow2(15) == 0x8000
  {
  }
}
