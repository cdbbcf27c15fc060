/** The chains as they lie in memory: links drawn from one pool, each naming the pool slot
    of the next one, and the slot of the first one for every IRQ.  Slot 0 is no link. */
module IrqChains {
  import opened IrqModel

  datatype Link = Link(entry: Entry, next: nat)

  datatype Mem = Mem(pool: seq<Link>, heads: seq<nat>, used: nat)

  /** The slots of one chain, in order, lead from its head to its end. */
  ghost predicate ChainOk(pool: seq<Link>, head: nat, c: seq<nat>) {
    && (forall j :: 0 <= j < |c| ==> 0 < c[j] < |pool|)
    && head == (if c == [] then 0 else c[0])
    && (forall j :: 0 <= j < |c| ==> LinkAt(pool, c, j))
  }

  ghost predicate LinkAt(pool: seq<Link>, c: seq<nat>, j: nat)
    requires j < |c| && c[j] < |pool|
  {
    pool[c[j]].next == if j + 1 < |c| then c[j + 1] else 0
  }

  ghost function Entries(pool: seq<Link>, c: seq<nat>): (r: seq<Entry>)
    requires forall j :: 0 <= j < |c| ==> c[j] < |pool|
  {
    seq(|c|, j requires 0 <= j < |c| => pool[c[j]].entry)
  }

  /** No slot is used twice, within a chain or across chains. */
  ghost predicate Apart(slots: seq<seq<nat>>) {
    forall i, j, k, l ::
      0 <= i < |slots| && 0 <= j < |slots[i]| && 0 <= k < |slots| && 0 <= l < |slots[k]| &&
        slots[i][j] == slots[k][l] ==>
        i == k && j == l
  }

  /** Only slots handed out are in chains; the others are still clear. */
  ghost predicate Handed(m: Mem, slots: seq<seq<nat>>) {
    && (forall i, j :: 0 <= i < |slots| && 0 <= j < |slots[i]| ==> slots[i][j] <= m.used)
    && (forall n :: m.used < n < |m.pool| ==> m.pool[n].next == 0)
  }

  ghost predicate Shaped(m: Mem, slots: seq<seq<nat>>) {
    && |m.pool| == POOL_SIZE && |m.heads| == |slots| == NUM_IRQS && m.used < POOL_SIZE
    && (forall i :: 0 <= i < NUM_IRQS ==> ChainOk(m.pool, m.heads[i], slots[i]))
    && Apart(slots) && Handed(m, slots)
  }

  /** What the chains mean. */
  ghost function Meaning(m: Mem, slots: seq<seq<nat>>): (r: State)
    requires Shaped(m, slots)
    ensures Proper(r)
  {
    State(seq(NUM_IRQS, i requires 0 <= i < NUM_IRQS => EntriesOn(m, slots, i)), m.used)
  }

  ghost function EntriesOn(m: Mem, slots: seq<seq<nat>>, i: nat): seq<Entry>
    requires Shaped(m, slots) && i < NUM_IRQS
  {
    assert ChainOk(m.pool, m.heads[i], slots[i]);
    Entries(m.pool, slots[i])
  }

  /** A chain only depends on the pool slots it runs through. */
  lemma ChainFrame(p: seq<Link>, q: seq<Link>, head: nat, c: seq<nat>)
    requires ChainOk(p, head, c) && |p| == |q|
    requires forall j :: 0 <= j < |c| ==> q[c[j]] == p[c[j]]
    ensures ChainOk(q, head, c) && Entries(q, c) == Entries(p, c)
  {
    forall j | 0 <= j < |c|
      ensures LinkAt(q, c, j)
    {
      assert LinkAt(p, c, j);
    }
  }

  /** The memory after a link for `e` is put at the end of an IRQ's chain. */
  function Linked(m: Mem, irq: nat, after: nat, e: Entry): Mem
    requires |m.pool| == POOL_SIZE && |m.heads| == NUM_IRQS && m.used + 1 < POOL_SIZE
    requires irq < NUM_IRQS && after < POOL_SIZE
  {
    var n := m.used + 1;
    var pool := if after == 0 then m.pool else m.pool[after := m.pool[after].(next := n)];
    Mem(pool[n := pool[n].(entry := e)], if after == 0 then m.heads[irq := n] else m.heads, n)
  }

  function LastOf(c: seq<nat>): nat { if c == [] then 0 else c[|c| - 1] }

  lemma ChainGrows(m: Mem, slots: seq<seq<nat>>, irq: nat, e: Entry)
    requires Shaped(m, slots) && m.used + 1 < POOL_SIZE && irq < NUM_IRQS
    ensures LastOf(slots[irq]) < POOL_SIZE
    ensures var n, c, m' := m.used + 1, slots[irq], Linked(m, irq, LastOf(slots[irq]), e);
            && ChainOk(m'.pool, m'.heads[irq], c + [n])
            && Entries(m'.pool, c + [n]) == Entries(m.pool, c) + [e]
  {
    var n, c := m.used + 1, slots[irq];
    assert ChainOk(m.pool, m.heads[irq], c);
    assert forall j :: 0 <= j < |c| ==> slots[irq][j] <= m.used;
    assert forall j :: 0 <= j < |c| - 1 ==> slots[irq][j] != slots[irq][|c| - 1];
    var m', d := Linked(m, irq, LastOf(c), e), c + [n];
    forall j | 0 <= j < |d|
      ensures LinkAt(m'.pool, d, j)
    {
      if j < |c| {
        assert LinkAt(m.pool, c, j);
      }
    }
    hide Shaped, Apart, Handed, LinkAt;
    EntriesGrow(m.pool, m'.pool, c, n, e);
  }

  lemma EntriesGrow(pool: seq<Link>, pool': seq<Link>, c: seq<nat>, n: nat, e: Entry)
    requires |pool'| == |pool| && n < |pool'| && pool'[n].entry == e
    requires forall j :: 0 <= j < |c| ==> c[j] < |pool| && pool'[c[j]].entry == pool[c[j]].entry
    ensures Entries(pool', c + [n]) == Entries(pool, c) + [e]
  {
  }

  lemma OthersStay(m: Mem, slots: seq<seq<nat>>, irq: nat, e: Entry, k: nat)
    requires Shaped(m, slots) && m.used + 1 < POOL_SIZE && irq < NUM_IRQS && k < NUM_IRQS && k != irq
    requires LastOf(slots[irq]) < POOL_SIZE
    ensures var m' := Linked(m, irq, LastOf(slots[irq]), e);
            && ChainOk(m'.pool, m'.heads[k], slots[k])
            && Entries(m'.pool, slots[k]) == Entries(m.pool, slots[k])
  {
    var c, m' := slots[irq], Linked(m, irq, LastOf(slots[irq]), e);
    forall j | 0 <= j < |slots[k]|
      ensures m'.pool[slots[k][j]] == m.pool[slots[k][j]]
    {
      assert slots[k][j] <= m.used;
      if c != [] {
        assert slots[k][j] != slots[irq][|c| - 1];
      }
    }
    ChainFrame(m.pool, m'.pool, m.heads[k], slots[k]);
  }

  lemma StillApart(slots: seq<seq<nat>>, irq: nat, n: nat)
    requires irq < |slots| && Apart(slots)
    requires forall i, j :: 0 <= i < |slots| && 0 <= j < |slots[i]| ==> slots[i][j] < n
    ensures Apart(slots[irq := slots[irq] + [n]])
  {
    var slots' := slots[irq := slots[irq] + [n]];
    forall i, j, k, l | 0 <= i < |slots'| && 0 <= j < |slots'[i]| && 0 <= k < |slots'| && 0 <= l < |slots'[k]| &&
      slots'[i][j] == slots'[k][l]
      ensures i == k && j == l
    {
      assert j < |slots[i]| ==> slots'[i][j] == slots[i][j] < n;
      assert l < |slots[k]| ==> slots'[k][l] == slots[k][l] < n;
    }
  }

  lemma StillHanded(m: Mem, slots: seq<seq<nat>>, irq: nat, e: Entry)
    requires Shaped(m, slots) && m.used + 1 < POOL_SIZE && irq < NUM_IRQS
    requires LastOf(slots[irq]) < POOL_SIZE
    ensures Handed(Linked(m, irq, LastOf(slots[irq]), e), slots[irq := slots[irq] + [m.used + 1]])
  {
    hide Apart, ChainOk;
    if slots[irq] != [] {
      assert slots[irq][|slots[irq]| - 1] <= m.used;
    }
  }

  /** Putting a link at the end of a chain is appending to it, and keeps the chains apart. */
  lemma LinkedAppends(m: Mem, slots: seq<seq<nat>>, irq: nat, e: Entry)
    requires Shaped(m, slots) && m.used + 1 < POOL_SIZE && irq < NUM_IRQS
    ensures LastOf(slots[irq]) < POOL_SIZE
    ensures var m', slots' := Linked(m, irq, LastOf(slots[irq]), e), slots[irq := slots[irq] + [m.used + 1]];
            Shaped(m', slots') && Meaning(m', slots') == Append(Meaning(m, slots), irq, e)
  {
    ChainGrows(m, slots, irq, e);
    var m', slots' := Linked(m, irq, LastOf(slots[irq]), e), slots[irq := slots[irq] + [m.used + 1]];
    forall k | 0 <= k < NUM_IRQS && k != irq
      ensures ChainOk(m'.pool, m'.heads[k], slots[k]) && Entries(m'.pool, slots[k]) == Entries(m.pool, slots[k])
    {
      OthersStay(m, slots, irq, e, k);
    }
    StillApart(slots, irq, m.used + 1);
    StillHanded(m, slots, irq, e);
    hide *;
    LinkedMeans(m, slots, irq, e);
  }

  lemma LinkedMeans(m: Mem, slots: seq<seq<nat>>, irq: nat, e: Entry)
    requires Shaped(m, slots) && m.used + 1 < POOL_SIZE && irq < NUM_IRQS
    requires LastOf(slots[irq]) < POOL_SIZE
    requires var m', slots' := Linked(m, irq, LastOf(slots[irq]), e), slots[irq := slots[irq] + [m.used + 1]];
             && Apart(slots') && Handed(m', slots')
             && ChainOk(m'.pool, m'.heads[irq], slots'[irq])
             && Entries(m'.pool, slots'[irq]) == EntriesOn(m, slots, irq) + [e]
             && (forall k :: 0 <= k < NUM_IRQS && k != irq ==>
                   ChainOk(m'.pool, m'.heads[k], slots[k]) && Entries(m'.pool, slots[k]) == EntriesOn(m, slots, k))
    ensures var m', slots' := Linked(m, irq, LastOf(slots[irq]), e), slots[irq := slots[irq] + [m.used + 1]];
            Shaped(m', slots') && Meaning(m', slots') == Append(Meaning(m, slots), irq, e)
  {
    hide ChainOk, Apart, Handed, LastOf, Entries;
    var m', slots' := Linked(m, irq, LastOf(slots[irq]), e), slots[irq := slots[irq] + [m.used + 1]];
    assert Shaped(m', slots');
    forall k | 0 <= k < NUM_IRQS
      ensures EntriesOn(m', slots', k) == Append(Meaning(m, slots), irq, e).chains[k]
    {
      assert Meaning(m, slots).chains[k] == EntriesOn(m, slots, k);
    }
  }

  /** Dropping a chain leaves the others as they are. */
  lemma Dropped(m: Mem, slots: seq<seq<nat>>, irq: nat)
    requires Shaped(m, slots) && irq < NUM_IRQS
    ensures var m', slots' := m.(heads := m.heads[irq := 0]), slots[irq := []];
            && Shaped(m', slots')
            && Meaning(m', slots') == Meaning(m, slots).(chains := Meaning(m, slots).chains[irq := []])
  {
    var m', slots' := m.(heads := m.heads[irq := 0]), slots[irq := []];
    assert Shaped(m', slots') by {
      hide ChainOk;
      assert ChainOk(m.pool, 0, []) by { EmptyOk(m.pool); }
      forall i, j, k, l | 0 <= i < |slots'| && 0 <= j < |slots'[i]| && 0 <= k < |slots'| && 0 <= l < |slots'[k]| &&
        slots'[i][j] == slots'[k][l]
        ensures i == k && j == l
      {
        assert slots[i][j] == slots[k][l];
      }
      forall i, j | 0 <= i < |slots'| && 0 <= j < |slots'[i]|
        ensures slots'[i][j] <= m.used
      {
        assert slots[i][j] <= m.used;
      }
    }
    hide ChainOk, Apart, Handed;
    assert Meaning(m', slots').chains == Meaning(m, slots).chains[irq := []];
  }

  lemma EmptyOk(pool: seq<Link>)
    ensures ChainOk(pool, 0, [])
  {
  }

  // ---------------------------------------------------------------------------
  // Moving a chain behind another one
  // ---------------------------------------------------------------------------

  /** The memory after `from`'s chain is hung behind `to`'s, entries unchanged. */
  function Rehung(m: Mem, slots: seq<seq<nat>>, from: nat, to: nat): Mem
    requires |m.heads| == |slots| == NUM_IRQS && from < NUM_IRQS && to < NUM_IRQS
    requires LastOf(slots[to]) < |m.pool|
  {
    var last := LastOf(slots[to]);
    Mem(if last == 0 then m.pool else m.pool[last := m.pool[last].(next := m.heads[from])],
        (if last == 0 then m.heads[to := m.heads[from]] else m.heads)[from := 0], m.used)
  }

  function Joined(slots: seq<seq<nat>>, from: nat, to: nat): seq<seq<nat>>
    requires |slots| == NUM_IRQS && from < NUM_IRQS && to < NUM_IRQS
  {
    slots[to := slots[to] + slots[from]][from := []]
  }

  lemma ChainsJoin(m: Mem, slots: seq<seq<nat>>, from: nat, to: nat)
    requires Shaped(m, slots) && from < NUM_IRQS && to < NUM_IRQS && from != to
    ensures LastOf(slots[to]) < POOL_SIZE
    ensures var c, m' := slots[to] + slots[from], Rehung(m, slots, from, to);
            && ChainOk(m'.pool, m'.heads[to], c)
            && Entries(m'.pool, c) == Entries(m.pool, slots[to]) + Entries(m.pool, slots[from])
  {
    var a, b := slots[to], slots[from];
    assert ChainOk(m.pool, m.heads[to], a) && ChainOk(m.pool, m.heads[from], b);
    LastElsewhere(slots, from, to);
    hide Apart, Handed;
    var m', c := Rehung(m, slots, from, to), a + b;
    forall j | 0 <= j < |c|
      ensures LinkAt(m'.pool, c, j)
    {
      if j < |a| {
        assert LinkAt(m.pool, a, j);
      } else {
        assert LinkAt(m.pool, b, j - |a|);
      }
    }
    hide Shaped, LinkAt;
    EntriesJoin(m.pool, m'.pool, a, b);
  }

  lemma EntriesJoin(pool: seq<Link>, pool': seq<Link>, a: seq<nat>, b: seq<nat>)
    requires |pool'| == |pool|
    requires forall j :: 0 <= j < |a| ==> a[j] < |pool| && pool'[a[j]].entry == pool[a[j]].entry
    requires forall j :: 0 <= j < |b| ==> b[j] < |pool| && pool'[b[j]].entry == pool[b[j]].entry
    ensures Entries(pool', a + b) == Entries(pool, a) + Entries(pool, b)
  {
  }

  /** The last slot of a chain is nowhere else in it, nor in another one. */
  lemma LastElsewhere(slots: seq<seq<nat>>, from: nat, to: nat)
    requires Apart(slots) && from < |slots| && to < |slots| && from != to
    ensures forall j :: 0 <= j < |slots[to]| - 1 ==> slots[to][j] != LastOf(slots[to])
    ensures slots[to] != [] ==> forall j :: 0 <= j < |slots[from]| ==> slots[from][j] != LastOf(slots[to])
  {
  }

  lemma OthersKept(m: Mem, slots: seq<seq<nat>>, from: nat, to: nat, k: nat)
    requires Shaped(m, slots) && from < NUM_IRQS && to < NUM_IRQS && from != to
    requires k < NUM_IRQS && k != from && k != to && LastOf(slots[to]) < POOL_SIZE
    ensures var m' := Rehung(m, slots, from, to);
            && ChainOk(m'.pool, m'.heads[k], slots[k])
            && Entries(m'.pool, slots[k]) == Entries(m.pool, slots[k])
  {
    var a, m' := slots[to], Rehung(m, slots, from, to);
    forall j | 0 <= j < |slots[k]|
      ensures m'.pool[slots[k][j]] == m.pool[slots[k][j]]
    {
      if a != [] {
        assert slots[k][j] != slots[to][|a| - 1];
      }
    }
    ChainFrame(m.pool, m'.pool, m.heads[k], slots[k]);
  }

  lemma JoinedApart(m: Mem, slots: seq<seq<nat>>, from: nat, to: nat)
    requires Shaped(m, slots) && from < NUM_IRQS && to < NUM_IRQS && from != to
    requires LastOf(slots[to]) < POOL_SIZE
    ensures Apart(Joined(slots, from, to)) && Handed(Rehung(m, slots, from, to), Joined(slots, from, to))
  {
    var joined, n := Joined(slots, from, to), |slots[to]|;
    forall i, j, k, l | 0 <= i < |joined| && 0 <= j < |joined[i]| && 0 <= k < |joined| && 0 <= l < |joined[k]| &&
      joined[i][j] == joined[k][l]
      ensures i == k && j == l
    {
      var i', j' := if i == to && j >= n then from else i, if i == to && j >= n then j - n else j;
      var k', l' := if k == to && l >= n then from else k, if k == to && l >= n then l - n else l;
      assert slots[i'][j'] == slots[k'][l'];
    }
    forall i, j | 0 <= i < |joined| && 0 <= j < |joined[i]|
      ensures joined[i][j] <= m.used
    {
      var i', j' := if i == to && j >= n then from else i, if i == to && j >= n then j - n else j;
      assert slots[i'][j'] <= m.used;
    }
    if slots[to] != [] {
      assert slots[to][n - 1] <= m.used;
    }
  }

  lemma RehungJoins(m: Mem, slots: seq<seq<nat>>, from: nat, to: nat)
    requires Shaped(m, slots) && from < NUM_IRQS && to < NUM_IRQS && from != to
    ensures LastOf(slots[to]) < POOL_SIZE
    ensures var m', joined, t := Rehung(m, slots, from, to), Joined(slots, from, to), Meaning(m, slots).chains;
            && Shaped(m', joined)
            && Meaning(m', joined) == State(t[to := t[to] + t[from]][from := []], m.used)
  {
    ChainsJoin(m, slots, from, to);
    var m', joined, t := Rehung(m, slots, from, to), Joined(slots, from, to), Meaning(m, slots).chains;
    forall k | 0 <= k < NUM_IRQS && k != from && k != to
      ensures ChainOk(m'.pool, m'.heads[k], slots[k]) && Entries(m'.pool, slots[k]) == Entries(m.pool, slots[k])
    {
      OthersKept(m, slots, from, to, k);
    }
    JoinedApart(m, slots, from, to);
    EmptyOk(m'.pool);
    NoEntries(m'.pool);
    hide *;
    RehungMeans(m, slots, from, to);
  }

  lemma RehungMeans(m: Mem, slots: seq<seq<nat>>, from: nat, to: nat)
    requires Shaped(m, slots) && from < NUM_IRQS && to < NUM_IRQS && from != to
    requires LastOf(slots[to]) < POOL_SIZE
    requires var m', joined := Rehung(m, slots, from, to), Joined(slots, from, to);
             && Apart(joined) && Handed(m', joined) && ChainOk(m'.pool, 0, []) && Entries(m'.pool, []) == []
             && ChainOk(m'.pool, m'.heads[to], joined[to])
             && Entries(m'.pool, joined[to]) == EntriesOn(m, slots, to) + EntriesOn(m, slots, from)
             && (forall k :: 0 <= k < NUM_IRQS && k != from && k != to ==>
                   ChainOk(m'.pool, m'.heads[k], slots[k]) && Entries(m'.pool, slots[k]) == EntriesOn(m, slots, k))
    ensures var m', joined, t := Rehung(m, slots, from, to), Joined(slots, from, to), Meaning(m, slots).chains;
            && Shaped(m', joined)
            && Meaning(m', joined) == State(t[to := t[to] + t[from]][from := []], m.used)
  {
    hide ChainOk, Apart, Handed, LastOf, Entries;
    var m', joined, t := Rehung(m, slots, from, to), Joined(slots, from, to), Meaning(m, slots).chains;
    assert Shaped(m', joined);
    forall k | 0 <= k < NUM_IRQS
      ensures EntriesOn(m', joined, k) == t[to := t[to] + t[from]][from := []][k]
    {
      assert t[k] == EntriesOn(m, slots, k);
    }
    assert Meaning(m', joined).chains == t[to := t[to] + t[from]][from := []];
  }

  lemma EndOf(m: Mem, slots: seq<seq<nat>>, irq: nat)
    requires Shaped(m, slots) && irq < NUM_IRQS
    ensures LastOf(slots[irq]) != 0 ==> m.pool[LastOf(slots[irq])].next == 0
  {
    if slots[irq] != [] {
      assert ChainOk(m.pool, m.heads[irq], slots[irq]);
      assert LinkAt(m.pool, slots[irq], |slots[irq]| - 1);
    }
  }

  lemma EmptyHead(m: Mem, slots: seq<seq<nat>>, irq: nat)
    requires Shaped(m, slots) && irq < NUM_IRQS
    ensures m.heads[irq] == 0 <==> slots[irq] == []
    ensures slots[irq] == [] <==> Meaning(m, slots).chains[irq] == []
    ensures slots[irq] == [] <==> LastOf(slots[irq]) == 0
  {
    assert ChainOk(m.pool, m.heads[irq], slots[irq]);
  }

  lemma NoEntries(pool: seq<Link>)
    ensures Entries(pool, []) == []
  {
  }

  lemma EntrySetChain(m: Mem, slots: seq<seq<nat>>, irq: nat, j: nat, e: Entry, k: nat)
    requires Shaped(m, slots) && irq < NUM_IRQS && j < |slots[irq]| && k < NUM_IRQS
    ensures slots[irq][j] < POOL_SIZE && |EntriesOn(m, slots, irq)| == |slots[irq]|
    ensures var n := slots[irq][j];
            var pool := m.pool[n := m.pool[n].(entry := e)];
            && ChainOk(pool, m.heads[k], slots[k])
            && Entries(pool, slots[k]) ==
                 if k == irq then EntriesOn(m, slots, irq)[j := e] else EntriesOn(m, slots, k)
  {
    hide Handed;
    assert ChainOk(m.pool, m.heads[irq], slots[irq]) && ChainOk(m.pool, m.heads[k], slots[k]);
    var n := slots[irq][j];
    var pool := m.pool[n := m.pool[n].(entry := e)];
    forall l | 0 <= l < |slots[k]|
      ensures LinkAt(pool, slots[k], l)
      ensures pool[slots[k][l]].entry == if k == irq && l == j then e else m.pool[slots[k][l]].entry
    {
      assert LinkAt(m.pool, slots[k], l);
      if k != irq || l != j {
        assert slots[k][l] != slots[irq][j];
      }
    }
  }

  /** Changing the entry in a slot of a chain changes that one entry. */
  lemma EntrySet(m: Mem, slots: seq<seq<nat>>, irq: nat, j: nat, e: Entry)
    requires Shaped(m, slots) && irq < NUM_IRQS && j < |slots[irq]|
    ensures slots[irq][j] < POOL_SIZE
    ensures var n, t := slots[irq][j], Meaning(m, slots).chains;
            var m' := m.(pool := m.pool[n := m.pool[n].(entry := e)]);
            && Shaped(m', slots) && |t[irq]| == |slots[irq]|
            && Meaning(m', slots) == State(t[irq := t[irq][j := e]], m.used)
  {
    EntrySetChain(m, slots, irq, j, e, irq);
    var n, t := slots[irq][j], Meaning(m, slots).chains;
    var m' := m.(pool := m.pool[n := m.pool[n].(entry := e)]);
    assert Handed(m', slots) by {
      assert slots[irq][j] <= m.used;
    }
    hide ChainOk, Apart, Handed, Entries;
    forall k | 0 <= k < NUM_IRQS
      ensures ChainOk(m'.pool, m'.heads[k], slots[k])
      ensures Entries(m'.pool, slots[k]) == t[irq := t[irq][j := e]][k]
    {
      EntrySetChain(m, slots, irq, j, e, k);
    }
    assert Shaped(m', slots);
    assert Meaning(m', slots).chains == t[irq := t[irq][j := e]];
  }
}
