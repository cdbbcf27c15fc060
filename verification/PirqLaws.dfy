/** What a PCI interrupt line is given, said without the tables the search goes by. */
module PirqLaws {
  import opened PirqModel

  // ---------------------------------------------------------------------------
  // Bitmaps
  // ---------------------------------------------------------------------------

  /** The bitmap with the given bits, lowest first. */
  function Bitmap(bits: seq<bool>): nat {
    if bits == [] then 0 else (if bits[0] then 1 else 0) + 2 * Bitmap(bits[1..])
  }

  lemma HalfOf(b: nat, x: nat, p: nat)
    requires b < 2 && 0 < p
    ensures (b + 2 * x) / (2 * p) == x / p
  {
    var y := b + 2 * x;
    var q, r := x / p, x % p;
    assert x == p * q + r;
    assert y == (2 * p) * q + (b + 2 * r);
    Divides(y, 2 * p, q, b + 2 * r);
  }

  lemma Divides(y: nat, d: nat, q: nat, r: nat)
    requires r < d && y == d * q + r
    ensures y / d == q
  {
    var q' := y / d;
    assert y == d * q' + y % d;
    assert q' < q ==> d * (q' + 1) <= d * q;
    assert q < q' ==> d * (q + 1) <= d * q';
  }

  lemma {:induction false} SupportsIs(bits: seq<bool>, j: nat)
    ensures Supports(Bitmap(bits), j) <==> j < |bits| && bits[j]
  {
    if bits == [] {
      assert 0 / Pow2(j) == 0;
    } else {
      var b, rest := if bits[0] then 1 else 0, Bitmap(bits[1..]);
      if j == 0 {
        assert (b + 2 * rest) / 1 % 2 == b;
      } else {
        SupportsIs(bits[1..], j - 1);
        HalfOf(b, rest, Pow2(j - 1));
      }
    }
  }

  /** The IRQs a line can have: those of its bitmap but the first three, COM1's and the mouse's. */
  lemma AllowedIs(t: Line, bits: seq<bool>, j: nat)
    requires t.irqs == Bitmap(bits) && |bits| == 16
    ensures Allowed(t, j) <==> j < 16 && bits[j] && j !in {0, 1, 2, 4, 12}
  {
    SupportsIs(bits, j);
    hide Supports;
  }

  // ---------------------------------------------------------------------------
  // One line
  // ---------------------------------------------------------------------------

  /** The line can have the IRQ, and no line has got it. */
  ghost predicate Unused(s: State, t: Line, j: nat)
    requires Proper(s)
  {
    Allowed(t, j) && forall k :: 0 <= k < s.used ==> s.slots[k].irq != j
  }

  /** Slot `n` has the lowest IRQ the line can have. */
  ghost predicate LowestAt(s: State, t: Line, n: nat)
    requires Proper(s)
  {
    n < s.used && Allowed(t, s.slots[n].irq) && forall j: nat | j < s.slots[n].irq :: !Allowed(t, j)
  }

  /** The slot the line would share at place `x`: that slot if the line can have its IRQ, and
      otherwise the next one, whose IRQ is still 0. */
  ghost function SharedAt(s: State, t: Line, x: nat): (z: nat)
    requires Proper(s) && x < s.used < MAX_PIRQ
    ensures z <= s.used
  {
    if Allowed(t, s.slots[x].irq) then x else s.used
  }

  ghost function LinesAt(s: State, t: Line, x: nat): nat
    requires Proper(s) && x < s.used < MAX_PIRQ
  {
    s.slots[SharedAt(s, t, x)].count
  }

  /** Of the places up to `n`, `x` is the first that the fewest lines have. */
  ghost predicate FewestAt(s: State, t: Line, n: nat, x: nat)
    requires Proper(s) && n < s.used < MAX_PIRQ
  {
    && x <= n
    && (forall y: nat | y <= n :: LinesAt(s, t, x) <= LinesAt(s, t, y))
    && (forall y: nat | y < x :: LinesAt(s, t, x) < LinesAt(s, t, y))
  }

  /** The line is given the IRQ of slot `z`, which one line more has then. */
  ghost predicate GivenFrom(s: State, t: Line, z: nat, irq: nat, used: nat, u: State)
    requires Proper(s) && z < MAX_PIRQ && 1 <= t.pirq <= MAX_PIRQ
  {
    u == State(s.given[t.pirq - 1 := Given(t.pirq, irq)], s.slots[z := Slot(irq, s.slots[z].count + 1)], used)
  }

  /** A line that can have an IRQ nobody has is given the highest of them.  One that can have none
      at all is given none.  Any other shares: up to the slot with the lowest IRQ it can have, it
      takes the first place that the fewest lines have. */
  ghost predicate Serves(s: State, t: Line, u: State)
    requires Proper(s) && s.used < MAX_PIRQ && 1 <= t.pirq <= MAX_PIRQ
  {
    if exists j: nat :: Unused(s, t, j) then
      exists j: nat :: Unused(s, t, j) && (forall k: nat | j < k :: !Unused(s, t, k))
        && GivenFrom(s, t, s.used, j, s.used + 1, u)
    else if forall j: nat :: !Allowed(t, j) then u == s
    else
      exists n: nat, x: nat :: LowestAt(s, t, n) && FewestAt(s, t, n, x)
        && GivenFrom(s, t, SharedAt(s, t, x), s.slots[SharedAt(s, t, x)].irq, s.used, u)
  }

  lemma TakenIs(s: State, t: Line, j: nat)
    requires Proper(s)
    ensures Unused(s, t, j) <==> Allowed(t, j) && !Taken(s, j)
  {
  }

  lemma ServedOwn(s: State, t: Line)
    requires Proper(s) && s.used < MAX_PIRQ && 1 <= t.pirq <= MAX_PIRQ && Highest(s, t, 15) != 0
    ensures Serves(s, t, Step(s, t))
  {
    var j := Highest(s, t, 15);
    forall k: nat
      ensures Unused(s, t, k) <==> Allowed(t, k) && !Taken(s, k)
    {
      TakenIs(s, t, k);
    }
    hide Highest, Lowest, Supports;
    assert Unused(s, t, j);
    assert forall k: nat | j < k :: !Unused(s, t, k);
    hide Unused, Taken;
    assert GivenFrom(s, t, s.used, j, s.used + 1, Step(s, t));
  }

  lemma ServedShared(s: State, t: Line)
    requires Proper(s) && s.used < MAX_PIRQ && 1 <= t.pirq <= MAX_PIRQ
    requires Highest(s, t, 15) == 0 && Lowest(t, 0) < 16
    ensures LowestAt(s, t, ListLength(s, t) - 1)
    ensures FewestAt(s, t, ListLength(s, t) - 1, Least(s, t, ListLength(s, t)))
    ensures var z := SharedAt(s, t, Least(s, t, ListLength(s, t)));
            GivenFrom(s, t, z, s.slots[z].irq, s.used, Step(s, t))
  {
    var n := ListLength(s, t);
    forall x: nat | x < n
      ensures SharedAt(s, t, x) == SlotFor(s, t, x) && LinesAt(s, t, x) == CountFor(s, t, x)
    {
    }
    hide Highest, Lowest, Supports, ListLength, Least;
  }

  /** So every line is served. */
  lemma StepServes(s: State, t: Line)
    requires Proper(s) && s.used < MAX_PIRQ && 1 <= t.pirq <= MAX_PIRQ
    ensures Serves(s, t, Step(s, t))
  {
    if Highest(s, t, 15) != 0 {
      ServedOwn(s, t);
    } else {
      forall k: nat
        ensures !Unused(s, t, k)
      {
        TakenIs(s, t, k);
      }
      if Lowest(t, 0) < 16 {
        ServedShared(s, t);
        assert Allowed(t, Lowest(t, 0));
      }
      hide Unused, LowestAt, FewestAt, GivenFrom, Highest, Least, ListLength, Supports;
    }
  }
}
