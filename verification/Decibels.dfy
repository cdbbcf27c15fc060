/** Conversion between amplification factors and hundredths of decibels through one table:
    the factor for every tenth of a decibel from -96.4 dB to 0. */
module Decibels {

  const TOP: nat := 964
  const FULL: nat := 0xffff

  /** Division as C does it, towards zero. */
  function Quotient(a: int, b: int): int
    requires b > 0
  {
    if a >= 0 then a / b else -(-a / b)
  }

  ghost predicate Nondecreasing(t: seq<nat>) {
    forall i, j :: 0 <= i <= j < |t| ==> t[i] <= t[j]
  }

  ghost predicate IsTable(t: seq<nat>) {
    |t| == TOP + 1 && Nondecreasing(t) && t[TOP] == FULL
  }

  /** The first entry from `i` on that reaches the factor, the last one if none before it
      does. */
  function FirstFrom(t: seq<nat>, factor: nat, i: nat): (r: nat)
    requires i < |t|
    ensures i <= r < |t|
    ensures forall j :: i <= j < r ==> t[j] < factor
    ensures r < |t| - 1 ==> factor <= t[r]
    decreases |t| - i
  {
    if i == |t| - 1 || factor <= t[i] then i else FirstFrom(t, factor, i + 1)
  }

  lemma {:induction false} FirstIs(t: seq<nat>, factor: nat, i: nat, r: nat)
    requires i <= r < |t| && (r < |t| - 1 ==> factor <= t[r]) && forall j :: i <= j < r ==> t[j] < factor
    ensures FirstFrom(t, factor, i) == r
    decreases r - i
  {
    if i < r {
      FirstIs(t, factor, i + 1, r);
    }
  }

  function ToDB(t: seq<nat>, factor: nat): int
    requires t != []
  {
    (FirstFrom(t, factor, 0) - TOP) * 10
  }

  /** The binary search. */
  method AmpFactorToDB(t: seq<nat>, factor: nat) returns (db: int)
    requires t != [] && Nondecreasing(t)
    ensures db == ToDB(t, factor)
  {
    var min, max := 0, |t| - 1;
    while min != max
      invariant 0 <= min <= max < |t|
      invariant forall j :: 0 <= j < min ==> t[j] < factor
      invariant max < |t| - 1 ==> factor <= t[max]
      decreases max - min
    {
      var middle := (min + max) / 2;
      if factor <= t[middle] {
        max := middle;
      } else {
        min := middle + 1;
      }
    }
    FirstIs(t, factor, 0, min);
    return (min - TOP) * 10;
  }

  /** The linear scan that stands beside it for the same job. */
  method AmpFactorToDBScan(t: seq<nat>, factor: nat) returns (db: int)
    requires t != []
    ensures db == ToDB(t, factor)
  {
    var i := 0;
    while i < |t| - 1 && factor > t[i]
      invariant 0 <= i < |t|
      invariant forall j :: 0 <= j < i ==> t[j] < factor
    {
      i := i + 1;
    }
    FirstIs(t, factor, 0, i);
    return (i - TOP) * 10;
  }

  /** Hundredths rounded to tenths of a decibel, no more than 0. */
  function Tenths(db: int): int {
    var scaled := Quotient(db - 5, 10);
    if scaled > 0 then 0 else scaled
  }

  function DBToAmpFactor(t: seq<nat>, db: int): nat
    requires |t| == TOP + 1
  {
    if Tenths(db) + TOP < 0 then 0 else t[Tenths(db) + TOP]
  }

  /** A level is given the factor of the nearest tenth of a decibel, the lower one of two as near;
      full amplitude from there on up, and nothing below the table. */
  lemma NearestTenth(t: seq<nat>, db: int, i: nat)
    requires IsTable(t) && i <= TOP
    requires 10 * (i - TOP) - 5 < db && (db <= 10 * (i - TOP) + 5 || i == TOP)
    ensures DBToAmpFactor(t, db) == t[i] && (i == TOP ==> t[i] == FULL)
  {
    if i < TOP {
      assert (5 - db) / 10 == TOP - i;
    }
  }

  lemma BelowTheTable(t: seq<nat>, db: int)
    requires IsTable(t) && db <= -10 * TOP - 5
    ensures DBToAmpFactor(t, db) == 0
  {
    assert (5 - db) / 10 > TOP;
  }

  lemma TenthsOf(k: nat)
    ensures Tenths(-10 * k) + k == 0
  {
    assert (10 * k + 5) / 10 == k;
  }

  /** Converting a factor to decibels and back gives the least table value that reaches it. */
  lemma RoundTripIsLeast(t: seq<nat>, factor: nat)
    requires IsTable(t) && factor <= FULL
    ensures var back := DBToAmpFactor(t, ToDB(t, factor));
            back in t && factor <= back && forall j :: 0 <= j < |t| && factor <= t[j] ==> back <= t[j]
  {
    TenthsOf(TOP - FirstFrom(t, factor, 0));
  }

  /** A factor beyond the table is taken for full amplitude. */
  lemma BeyondTheTable(t: seq<nat>, factor: nat)
    requires IsTable(t) && factor > FULL
    ensures DBToAmpFactor(t, ToDB(t, factor)) == FULL
  {
    FirstIs(t, factor, 0, TOP);
    TenthsOf(0);
  }

  /** Converting back and forth once more changes nothing. */
  lemma SecondRoundTrip(t: seq<nat>, factor: nat)
    requires IsTable(t)
    ensures var back := DBToAmpFactor(t, ToDB(t, factor));
            && DBToAmpFactor(t, ToDB(t, back)) == back
            && (factor <= FULL ==> ToDB(t, back) == ToDB(t, factor))
  {
    var back, r := DBToAmpFactor(t, ToDB(t, factor)), FirstFrom(t, factor, 0);
    TenthsOf(TOP - r);
    if factor <= FULL {
      FirstIs(t, t[r], 0, r);
    } else {
      BeyondTheTable(t, factor);
      RoundTripIsLeast(t, back);
    }
  }

  /** The two conversions fit together: a factor is reached at `db` exactly when its own
      decibels, in tenths, are no more than those of `db`.  (0 is reached everywhere.) */
  lemma Reached(t: seq<nat>, factor: nat, db: int)
    requires IsTable(t) && factor <= FULL
    ensures factor <= DBToAmpFactor(t, db) <==> factor == 0 || ToDB(t, factor) <= 10 * Tenths(db)
  {
    var r, i := FirstFrom(t, factor, 0), Tenths(db) + TOP;
    if i >= 0 {
      assert r <= i ==> t[r] <= t[i];
      assert factor == 0 ==> r == 0;
    }
  }

  /** More decibels never give a smaller factor. */
  lemma Monotone(t: seq<nat>, db: int, more: int)
    requires IsTable(t) && db <= more
    ensures DBToAmpFactor(t, db) <= DBToAmpFactor(t, more) <= FULL
  {
    assert Tenths(db) <= Tenths(more) by { TenthsMonotone(db, more); }
  }

  lemma TenthsMonotone(db: int, more: int)
    requires db <= more
    ensures Tenths(db) <= Tenths(more)
  {
  }
}
