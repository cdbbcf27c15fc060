/** The command and response rings between the driver and the codecs, sections 4.4.1 and
    4.4.2 of the High Definition Audio Specification 1.0a.  The positions the hardware
    owns (CORBRP, RIRBWP) are parameters, and lie within the ring. */
module CommandRings {

  const MAX_CODEC: nat := 16
  const MAX_UNSOLIC: nat := 64

  /** A response with its extension word: the codec's address in the low four bits, then
      the unsolicited flag. */
  datatype Rirb = Rirb(response: nat, ex: nat)

  function Cad(e: Rirb): nat { e.ex % 16 }

  predicate Unsolicited(e: Rirb) { (e.ex / 16) % 2 == 1 }

  /** A codec slot: none there, one with no command list, or one waiting for `wanted`
      responses of which `got` have come. */
  datatype Codec = Absent | Idle | Waiting(wanted: nat, got: seq<nat>)

  function UnsolicWord(e: Rirb): nat {
    Cad(e) * 0x1_0000 + (e.response / 0x400_0000) % 0x1_0000
  }

  /** The fields of an entry: the codec's address, whether it is unsolicited, and the six bits
      of an unsolicited response's tag; `low` and `high` are the bits between and above. */
  lemma FieldsAre(cad: nat, unsolicited: bool, high: nat, tag: nat, low: nat)
    requires cad < 16 && tag < 64 && low < 0x400_0000
    ensures var e := Rirb(low + tag * 0x400_0000, cad + (if unsolicited then 16 else 0) + high * 32);
            && Cad(e) == cad && (Unsolicited(e) <==> unsolicited)
            && UnsolicWord(e) == tag + cad * 0x1_0000
  {
    var e := Rirb(low + tag * 0x400_0000, cad + (if unsolicited then 16 else 0) + high * 32);
    assert e.ex / 16 == (if unsolicited then 1 else 0) + high * 2;
    assert e.ex % 16 == cad;
    assert e.response / 0x400_0000 == tag;
  }

  // ---------------------------------------------------------------------------
  // Ranges of a ring
  // ---------------------------------------------------------------------------

  function After(size: nat, p: nat): nat
    requires 0 < size
  {
    (p + 1) % size
  }

  /** How many steps lead from `p` to `q`. */
  function Dist(size: nat, p: nat, q: nat): nat
    requires p < size && q < size
  {
    if p <= q then q - p else q + size - p
  }

  /** The position `i` steps beyond `p`. */
  function Ahead(size: nat, p: nat, i: nat): nat
    requires p < size && i <= size
  {
    if p + i < size then p + i else p + i - size
  }

  lemma AfterIsAhead(size: nat, p: nat)
    requires p < size
    ensures After(size, p) == Ahead(size, p, 1) < size
    ensures forall q :: 0 <= q < size && q != p ==> Dist(size, After(size, p), q) == Dist(size, p, q) - 1
  {
    if p + 1 == size {
      assert (p + 1) % size == 0;
    }
  }

  /** The entries after `p` up to and including `q`, in ring order. */
  function Range<T>(ring: seq<T>, p: nat, q: nat): (r: seq<T>)
    requires p < |ring| && q < |ring|
    decreases Dist(|ring|, p, q)
  {
    if p == q then []
    else
      AfterIsAhead(|ring|, p);
      var n := After(|ring|, p);
      [ring[n]] + Range(ring, n, q)
  }

  /** Each slot of the range is taken once, in order. */
  lemma {:induction false} RangeIs<T>(ring: seq<T>, p: nat, q: nat)
    requires p < |ring| && q < |ring|
    ensures |Range(ring, p, q)| == Dist(|ring|, p, q) < |ring|
    ensures forall i :: 1 <= i <= Dist(|ring|, p, q) ==> ring[Ahead(|ring|, p, i)] == Range(ring, p, q)[i - 1]
    decreases Dist(|ring|, p, q)
  {
    if p != q {
      var n := After(|ring|, p);
      AfterIsAhead(|ring|, p);
      RangeIs(ring, n, q);
      forall i | 1 <= i <= Dist(|ring|, p, q)
        ensures ring[Ahead(|ring|, p, i)] == Range(ring, p, q)[i - 1]
      {
        if i > 1 {
          assert Ahead(|ring|, n, i - 1) == Ahead(|ring|, p, i);
        }
      }
    }
  }

  /** Slots filled in ring order make up the range they span. */
  lemma SlotsMakeRange(ring: seq<nat>, p: nat, items: seq<nat>)
    requires p < |ring| && |items| < |ring|
    requires forall i :: 1 <= i <= |items| ==> ring[Ahead(|ring|, p, i)] == items[i - 1]
    ensures Ahead(|ring|, p, |items|) < |ring|
    ensures Range(ring, p, Ahead(|ring|, p, |items|)) == items
  {
    var q := Ahead(|ring|, p, |items|);
    RangeIs(ring, p, q);
    assert Dist(|ring|, p, q) == |items|;
    forall i | 0 <= i < |items|
      ensures Range(ring, p, q)[i] == items[i]
    {
      assert ring[Ahead(|ring|, p, i + 1)] == items[i + 1 - 1];
    }
  }

  // ---------------------------------------------------------------------------
  // Responses
  // ---------------------------------------------------------------------------

  function Delivered(c: Codec, e: Rirb): Codec {
    if c.Waiting? && 0 < c.wanted && |c.got| < c.wanted then c.(got := c.got + [e.response]) else c
  }

  /** One entry delivered to the codec it comes from. */
  function Deliver(codecs: seq<Codec>, e: Rirb): (r: seq<Codec>)
    requires |codecs| == MAX_CODEC
    ensures |r| == MAX_CODEC
  {
    if Unsolicited(e) then codecs else codecs[Cad(e) := Delivered(codecs[Cad(e)], e)]
  }

  function DeliverAll(codecs: seq<Codec>, es: seq<Rirb>): (r: seq<Codec>)
    requires |codecs| == MAX_CODEC
    ensures |r| == MAX_CODEC
    decreases |es|
  {
    if es == [] then codecs else DeliverAll(Deliver(codecs, es[0]), es[1..])
  }

  /** The entries that count: those from codecs that are there. */
  function Known(codecs: seq<Codec>, es: seq<Rirb>): nat
    requires |codecs| == MAX_CODEC
  {
    if es == [] then 0 else (if codecs[Cad(es[0])].Absent? then 0 else 1) + Known(codecs, es[1..])
  }

  /** The words queued for unsolicited responses. */
  function Words(codecs: seq<Codec>, es: seq<Rirb>): seq<nat>
    requires |codecs| == MAX_CODEC
  {
    if es == [] then []
    else (if !codecs[Cad(es[0])].Absent? && Unsolicited(es[0]) then [UnsolicWord(es[0])] else [])
         + Words(codecs, es[1..])
  }

  /** The responses codec `c` was asked for, in the order they came. */
  function Solicited(es: seq<Rirb>, c: nat): seq<nat> {
    if es == [] then []
    else (if Cad(es[0]) == c && !Unsolicited(es[0]) then [es[0].response] else []) + Solicited(es[1..], c)
  }

  function Take(s: seq<nat>, n: nat): seq<nat> { if n <= |s| then s[..n] else s }

  /** A waiting codec gets its own solicited responses in order, up to the number it waits
      for and not one more; nothing else reaches it. */
  lemma {:induction false} ResponsesInOrder(codecs: seq<Codec>, es: seq<Rirb>, c: nat)
    requires |codecs| == MAX_CODEC && c < MAX_CODEC
    requires codecs[c].Waiting? ==> |codecs[c].got| <= codecs[c].wanted
    ensures DeliverAll(codecs, es)[c] ==
            if codecs[c].Waiting?
            then Waiting(codecs[c].wanted,
                         codecs[c].got + Take(Solicited(es, c), codecs[c].wanted - |codecs[c].got|))
            else codecs[c]
    decreases |es|
  {
    if es == [] {
      if codecs[c].Waiting? {
        assert codecs[c].got + [] == codecs[c].got;
      }
    } else {
      hide Take, Solicited, DeliverAll, Unsolicited, Cad, Deliver;
      DeliverBounds(codecs, es[0], c);
      ResponsesInOrder(Deliver(codecs, es[0]), es[1..], c);
      FirstCounts(codecs, es, c);
      if codecs[c].Waiting? {
        OneDelivered(codecs, es[0], Solicited(es[1..], c), c);
      }
    }
  }

  lemma DeliverBounds(codecs: seq<Codec>, e: Rirb, c: nat)
    requires |codecs| == MAX_CODEC && c < MAX_CODEC
    requires codecs[c].Waiting? ==> |codecs[c].got| <= codecs[c].wanted
    ensures var d := Deliver(codecs, e)[c];
            d.Waiting? == codecs[c].Waiting? && (d.Waiting? ==> |d.got| <= d.wanted == codecs[c].wanted)
    ensures !codecs[c].Waiting? ==> Deliver(codecs, e)[c] == codecs[c]
  {
  }

  /** What one entry and the rest of them come to for a waiting codec. */
  lemma OneDelivered(codecs: seq<Codec>, e: Rirb, rest: seq<nat>, c: nat)
    requires |codecs| == MAX_CODEC && c < MAX_CODEC && codecs[c].Waiting? && |codecs[c].got| <= codecs[c].wanted
    ensures var d, mine := Deliver(codecs, e)[c], if Cad(e) == c && !Unsolicited(e) then [e.response] else [];
            && d.Waiting? && d.wanted == codecs[c].wanted && |d.got| <= d.wanted
            && d.got + Take(rest, d.wanted - |d.got|)
               == codecs[c].got + Take(mine + rest, codecs[c].wanted - |codecs[c].got|)
  {
    hide Take, Unsolicited, Cad;
    assert [] + rest == rest;
    if Cad(e) == c && !Unsolicited(e) {
      TakeOneMore(codecs[c].got, e.response, rest, codecs[c].wanted);
    }
  }

  lemma FirstCounts(codecs: seq<Codec>, es: seq<Rirb>, c: nat)
    requires |codecs| == MAX_CODEC && c < MAX_CODEC && es != []
    ensures DeliverAll(codecs, es) == DeliverAll(Deliver(codecs, es[0]), es[1..])
    ensures Solicited(es, c) ==
            (if Cad(es[0]) == c && !Unsolicited(es[0]) then [es[0].response] else []) + Solicited(es[1..], c)
    ensures Deliver(codecs, es[0])[c] ==
            if Cad(es[0]) == c && !Unsolicited(es[0]) then Delivered(codecs[c], es[0]) else codecs[c]
  {
  }

  lemma TakeOneMore(got: seq<nat>, r: nat, rest: seq<nat>, wanted: nat)
    requires |got| <= wanted
    ensures |got| < wanted ==>
              got + Take([r] + rest, wanted - |got|) == (got + [r]) + Take(rest, wanted - |got| - 1)
    ensures |got| == wanted ==> got + Take([r] + rest, 0) == got + Take(rest, 0)
  {
    if |got| < wanted <= |got| + |rest| + 1 {
      var n := wanted - |got|;
      assert ([r] + rest)[..n] == [r] + rest[..n - 1];
    }
  }

  lemma {:induction false} DeliverSnoc(codecs: seq<Codec>, es: seq<Rirb>, e: Rirb)
    requires |codecs| == MAX_CODEC
    ensures DeliverAll(codecs, es + [e]) == Deliver(DeliverAll(codecs, es), e)
    decreases |es|
  {
    if es == [] {
      assert DeliverAll(codecs, [e]) == DeliverAll(Deliver(codecs, e), []);
    } else {
      assert (es + [e])[1..] == es[1..] + [e];
      DeliverSnoc(Deliver(codecs, es[0]), es[1..], e);
    }
  }

  lemma {:induction false} CountSnoc(codecs: seq<Codec>, es: seq<Rirb>, e: Rirb)
    requires |codecs| == MAX_CODEC
    ensures Known(codecs, es + [e]) == Known(codecs, es) + if codecs[Cad(e)].Absent? then 0 else 1
    ensures Words(codecs, es + [e]) ==
            Words(codecs, es) + if !codecs[Cad(e)].Absent? && Unsolicited(e) then [UnsolicWord(e)] else []
    decreases |es|
  {
    if es == [] {
      assert (es + [e])[1..] == [];
    } else {
      assert (es + [e])[1..] == es[1..] + [e];
      CountSnoc(codecs, es[1..], e);
    }
  }

  lemma {:induction false} AbsentStays(codecs: seq<Codec>, es: seq<Rirb>, c: nat)
    requires |codecs| == MAX_CODEC && c < MAX_CODEC
    ensures DeliverAll(codecs, es)[c].Absent? == codecs[c].Absent?
    decreases |es|
  {
    if es != [] {
      AbsentStays(Deliver(codecs, es[0]), es[1..], c);
    }
  }

  /** Entries of codecs that are there, the unsolicited ones of these, and the answers of one
      codec. */
  datatype Pick = Present(codecs: seq<Codec>) | Unasked(codecs: seq<Codec>) | AnswersTo(cad: nat)

  predicate Picks(pick: Pick, e: Rirb) {
    match pick
    case Present(codecs) => |codecs| == MAX_CODEC && !codecs[Cad(e)].Absent?
    case Unasked(codecs) => |codecs| == MAX_CODEC && !codecs[Cad(e)].Absent? && Unsolicited(e)
    case AnswersTo(cad) => Cad(e) == cad && !Unsolicited(e)
  }

  /** The places in `es` of the entries that `pick` is about, in order. */
  ghost predicate ArePlaces(es: seq<Rirb>, pick: Pick, at: seq<nat>) {
    && (forall i, j :: 0 <= i < j < |at| ==> at[i] < at[j])
    && (forall i :: 0 <= i < |at| ==> at[i] < |es| && Picks(pick, es[at[i]]))
    && (forall k :: 0 <= k < |es| && Picks(pick, es[k]) ==> k in at)
  }

  lemma NoPlaces(pick: Pick)
    ensures ArePlaces([], pick, [])
  {
  }

  lemma PlacesSnoc(es: seq<Rirb>, e: Rirb, pick: Pick, at: seq<nat>)
    requires ArePlaces(es, pick, at)
    ensures ArePlaces(es + [e], pick, if Picks(pick, e) then at + [|es|] else at)
    ensures forall i :: 0 <= i < |at| ==> at[i] < |es| && (es + [e])[at[i]] == es[at[i]]
  {
    hide Picks;
    var more := if Picks(pick, e) then at + [|es|] else at;
    forall k | 0 <= k < |es| + 1 && Picks(pick, (es + [e])[k])
      ensures k in more
    {
      if k == |es| {
        assert more[|at|] == k;
      }
    }
  }

  /** The entries counted are those of codecs that are there, */
  lemma {:induction false} CountedAre(codecs: seq<Codec>, es: seq<Rirb>) returns (at: seq<nat>)
    requires |codecs| == MAX_CODEC
    ensures ArePlaces(es, Present(codecs), at) && Known(codecs, es) == |at|
    decreases |es|
  {
    hide ArePlaces, Cad, Unsolicited;
    if es == [] {
      at := [];
      NoPlaces(Present(codecs));
    } else {
      var most, e := es[..|es| - 1], es[|es| - 1];
      assert es == most + [e];
      at := CountedAre(codecs, most);
      hide Known, Words;
      CountSnoc(codecs, most, e);
      PlacesSnoc(most, e, Present(codecs), at);
      at := if Picks(Present(codecs), e) then at + [|most|] else at;
    }
  }

  /** and the words queued those of the unsolicited ones among them, in the order they came. */
  lemma {:induction false} WordsAre(codecs: seq<Codec>, es: seq<Rirb>) returns (at: seq<nat>)
    requires |codecs| == MAX_CODEC
    ensures ArePlaces(es, Unasked(codecs), at) && |Words(codecs, es)| == |at|
    ensures forall i :: 0 <= i < |at| ==> at[i] < |es| && Words(codecs, es)[i] == UnsolicWord(es[at[i]])
    decreases |es|
  {
    hide ArePlaces, Cad, Unsolicited, UnsolicWord;
    if es == [] {
      at := [];
      NoPlaces(Unasked(codecs));
    } else {
      var most, e := es[..|es| - 1], es[|es| - 1];
      assert es == most + [e];
      at := WordsAre(codecs, most);
      hide Known, Words;
      CountSnoc(codecs, most, e);
      PlacesSnoc(most, e, Unasked(codecs), at);
      at := if Picks(Unasked(codecs), e) then at + [|most|] else at;
    }
  }

  lemma {:induction false} SolicitedSnoc(es: seq<Rirb>, e: Rirb, c: nat)
    ensures Solicited(es + [e], c) == Solicited(es, c) + if Picks(AnswersTo(c), e) then [e.response] else []
  {
    hide Solicited, Picks;
    SolicitedFirst(es + [e], c);
    if es == [] {
      assert (es + [e])[1..] == [];
      SolicitedNone(c);
    } else {
      assert (es + [e])[1..] == es[1..] + [e];
      SolicitedFirst(es, c);
      SolicitedSnoc(es[1..], e, c);
    }
  }

  lemma SolicitedNone(c: nat)
    ensures Solicited([], c) == []
  {
  }

  lemma SolicitedFirst(es: seq<Rirb>, c: nat)
    requires es != []
    ensures Solicited(es, c) == (if Picks(AnswersTo(c), es[0]) then [es[0].response] else []) + Solicited(es[1..], c)
  {
  }

  /** A codec's own responses are those of the entries with its address that are not unsolicited,
      in the order they came. */
  lemma {:induction false} SolicitedAre(es: seq<Rirb>, c: nat) returns (at: seq<nat>)
    ensures ArePlaces(es, AnswersTo(c), at) && |Solicited(es, c)| == |at|
    ensures forall i :: 0 <= i < |at| ==> at[i] < |es| && Solicited(es, c)[i] == es[at[i]].response
    decreases |es|
  {
    hide ArePlaces, Cad, Unsolicited;
    if es == [] {
      at := [];
      NoPlaces(AnswersTo(c));
    } else {
      var most, e := es[..|es| - 1], es[|es| - 1];
      assert es == most + [e];
      at := SolicitedAre(most, c);
      hide Solicited;
      SolicitedSnoc(most, e, c);
      PlacesSnoc(most, e, AnswersTo(c), at);
      at := if Picks(AnswersTo(c), e) then at + [|most|] else at;
    }
  }

  /** `words` written into the unsolicited queue one after another from `wp` on. */
  function Queued(q: seq<nat>, wp: nat, words: seq<nat>): (r: seq<nat>)
    requires |q| == MAX_UNSOLIC && wp < MAX_UNSOLIC
    ensures |r| == MAX_UNSOLIC
    decreases |words|
  {
    if words == [] then q else Queued(q[wp := words[0]], (wp + 1) % MAX_UNSOLIC, words[1..])
  }

  lemma {:induction false} QueuedSnoc(q: seq<nat>, wp: nat, words: seq<nat>, w: nat)
    requires |q| == MAX_UNSOLIC && wp < MAX_UNSOLIC
    ensures Queued(q, wp, words + [w]) == Queued(q, wp, words)[(wp + |words|) % MAX_UNSOLIC := w]
    decreases |words|
  {
    if words == [] {
      assert Queued(q, wp, [w]) == Queued(q[wp := w], (wp + 1) % MAX_UNSOLIC, []);
    } else {
      assert (words + [w])[1..] == words[1..] + [w];
      QueuedSnoc(q[wp := words[0]], (wp + 1) % MAX_UNSOLIC, words[1..], w);
    }
  }

  /** Each slot has the last word that came to it, and those that none came to are unchanged. */
  lemma {:induction false} QueuedIs(q: seq<nat>, wp: nat, words: seq<nat>, k: nat)
    requires |q| == MAX_UNSOLIC && wp < MAX_UNSOLIC && k < MAX_UNSOLIC
    ensures k < |words| ==>
              var n := |words| - 1 - k; Queued(q, wp, words)[(wp + n) % MAX_UNSOLIC] == words[n]
    ensures |words| <= k ==>
              Queued(q, wp, words)[(wp + k) % MAX_UNSOLIC] == q[(wp + k) % MAX_UNSOLIC]
    decreases |words|
  {
    if words != [] {
      var most, last := words[..|words| - 1], words[|words| - 1];
      assert words == most + [last];
      QueuedSnoc(q, wp, most, last);
      if |words| <= k {
        QueuedIs(q, wp, most, k);
        DistinctSlots(wp, |most|, k);
      } else if k > 0 {
        QueuedIs(q, wp, most, k - 1);
        DistinctSlots(wp, |words| - 1 - k, |most|);
      }
    }
  }

  lemma DistinctSlots(wp: nat, i: nat, j: nat)
    requires i < j < i + MAX_UNSOLIC
    ensures (wp + i) % MAX_UNSOLIC != (wp + j) % MAX_UNSOLIC
  {
  }

  /** What the rings' state is once the entries `done` are handled. */
  ghost predicate Handled(c0: seq<Codec>, q0: seq<nat>, w0: nat, done: seq<Rirb>,
                          codecs: seq<Codec>, q: seq<nat>, w: nat, count: nat)
    requires |c0| == MAX_CODEC && |q0| == MAX_UNSOLIC && w0 < MAX_UNSOLIC
  {
    && codecs == DeliverAll(c0, done)
    && count == Known(c0, done)
    && q == Queued(q0, w0, Words(c0, done))
    && w == (w0 + |Words(c0, done)|) % MAX_UNSOLIC
  }

  lemma NothingHandled(c0: seq<Codec>, q0: seq<nat>, w0: nat)
    requires |c0| == MAX_CODEC && |q0| == MAX_UNSOLIC && w0 < MAX_UNSOLIC
    ensures Handled(c0, q0, w0, [], c0, q0, w0, 0)
  {
  }

  lemma HandledMeans(c0: seq<Codec>, q0: seq<nat>, w0: nat, done: seq<Rirb>,
                     codecs: seq<Codec>, q: seq<nat>, w: nat, count: nat)
    requires |c0| == MAX_CODEC && |q0| == MAX_UNSOLIC && w0 < MAX_UNSOLIC
    requires Handled(c0, q0, w0, done, codecs, q, w, count)
    ensures codecs == DeliverAll(c0, done) && count == Known(c0, done)
    ensures q == Queued(q0, w0, Words(c0, done)) && w == (w0 + |Words(c0, done)|) % MAX_UNSOLIC
  {
    hide DeliverAll, Known, Words, Queued;
  }

  /** One more entry handled, on each of the things that record it. */
  lemma HandleSteps(c0: seq<Codec>, q0: seq<nat>, w0: nat, done: seq<Rirb>,
                    codecs: seq<Codec>, q: seq<nat>, w: nat, count: nat, e: Rirb)
    requires |c0| == MAX_CODEC && |q0| == MAX_UNSOLIC && w0 < MAX_UNSOLIC
    requires |codecs| == MAX_CODEC && |q| == MAX_UNSOLIC && w < MAX_UNSOLIC
    requires Handled(c0, q0, w0, done, codecs, q, w, count)
    ensures var here := !codecs[Cad(e)].Absent?;
            var asked := here && Unsolicited(e);
            Handled(c0, q0, w0, done + [e], Deliver(codecs, e),
                    if asked then q[w := UnsolicWord(e)] else q,
                    if asked then (w + 1) % MAX_UNSOLIC else w,
                    count + if here then 1 else 0)
  {
    hide Deliver, DeliverAll, Known, Words, Queued, UnsolicWord, Unsolicited;
    DeliverSnoc(c0, done, e);
    CountSnoc(c0, done, e);
    AbsentStays(c0, done, Cad(e));
    QueuedSnoc(q0, w0, Words(c0, done), UnsolicWord(e));
    assert Words(c0, done) + [] == Words(c0, done);
  }

  lemma RangeStep<T>(ring: seq<T>, p: nat, q: nat)
    requires p < |ring| && q < |ring| && p != q
    ensures var n := (p + 1) % |ring|;
            n < |ring| && Range(ring, p, q) == [ring[n]] + Range(ring, n, q)
            && Dist(|ring|, n, q) < Dist(|ring|, p, q)
  {
    AfterIsAhead(|ring|, p);
  }

  lemma RangeEmpty<T>(ring: seq<T>, p: nat)
    requires p < |ring|
    ensures Range(ring, p, p) == []
  {
  }

  lemma ConcatAssoc<T>(a: seq<T>, b: seq<T>, c: seq<T>)
    ensures a + (b + c) == (a + b) + c
  {
  }

  class HdaCore {
    const corb: array<nat>
    const rirb: array<Rirb>
    const unsolicQ: array<nat>
    const codecs: array<Codec>
    var corbWp: nat
    var rirbRp: nat
    var unsolicWp: nat

    ghost predicate Valid()
      reads this
    {
      && corbWp < corb.Length && rirbRp < rirb.Length && unsolicWp < MAX_UNSOLIC
      && unsolicQ.Length == MAX_UNSOLIC && codecs.Length == MAX_CODEC
      && corb != unsolicQ
    }

    /** Rings of the given sizes, nothing in them. */
    constructor (corbSize: nat, rirbSize: nat)
      requires 0 < corbSize && 0 < rirbSize
      ensures fresh(corb) && fresh(rirb) && fresh(unsolicQ) && fresh(codecs) && Valid()
      ensures corb.Length == corbSize && rirb.Length == rirbSize && corbWp == rirbRp == unsolicWp == 0
    {
      corb := new nat[corbSize](_ => 0);
      rirb := new Rirb[rirbSize](_ => Rirb(0, 0));
      unsolicQ := new nat[MAX_UNSOLIC](_ => 0);
      codecs := new Codec[MAX_CODEC](_ => Absent);
      corbWp, rirbRp, unsolicWp := 0, 0, 0;
    }

    /** Handles the responses up to the hardware's write pointer: the read pointer ends up
        there, and every entry after the old one is handled once, in ring order. */
    method FlushRirb(wp: nat) returns (ret: nat)
      requires Valid() && wp < rirb.Length
      modifies this`rirbRp, this`unsolicWp, unsolicQ, codecs
      ensures Valid() && rirbRp == wp
      ensures var es := Range(rirb[..], old(rirbRp), wp);
              && codecs[..] == DeliverAll(old(codecs[..]), es)
              && ret == Known(old(codecs[..]), es)
              && unsolicQ[..] == Queued(old(unsolicQ[..]), old(unsolicWp), Words(old(codecs[..]), es))
              && unsolicWp == (old(unsolicWp) + |Words(old(codecs[..]), es)|) % MAX_UNSOLIC
    {
      hide Deliver, DeliverAll, Known, Words, Queued, UnsolicWord, Range, Handled, Dist, After;
      ghost var c0, q0, w0, ring0 := codecs[..], unsolicQ[..], unsolicWp, rirb[..];
      ghost var all := Range(ring0, rirbRp, wp);
      ghost var done: seq<Rirb> := [];
      NothingHandled(c0, q0, w0);
      ret := 0;
      while rirbRp != wp
        invariant rirb[..] == ring0 && Valid()
        invariant Handled(c0, q0, w0, done, codecs[..], unsolicQ[..], unsolicWp, ret)
        invariant all == done + Range(ring0, rirbRp, wp)
        decreases Dist(rirb.Length, rirbRp, wp)
      {
        RangeStep(ring0, rirbRp, wp);
        rirbRp := rirbRp + 1;
        rirbRp := rirbRp % rirb.Length;
        var e := rirb[rirbRp];
        ConcatAssoc(done, [e], Range(ring0, rirbRp, wp));
        HandleSteps(c0, q0, w0, done, codecs[..], unsolicQ[..], unsolicWp, ret, e);
        var counted := HandleEntry(e);
        if counted {
          ret := ret + 1;
        }
        done := done + [e];
      }
      RangeEmpty(ring0, wp);
      assert done + [] == done;
      assert done == Range(rirb[..], old(rirbRp), wp);
      HandledMeans(c0, q0, w0, done, codecs[..], unsolicQ[..], unsolicWp, ret);
    }

    /** The body of that loop: false for an entry of a codec that is not there. */
    method HandleEntry(e: Rirb) returns (counted: bool)
      requires Valid()
      modifies this`unsolicWp, unsolicQ, codecs
      ensures Valid() && counted == !old(codecs[Cad(e)]).Absent?
      ensures codecs[..] == Deliver(old(codecs[..]), e)
      ensures if counted && Unsolicited(e)
              then unsolicQ[..] == old(unsolicQ[..])[old(unsolicWp) := UnsolicWord(e)]
                   && unsolicWp == (old(unsolicWp) + 1) % MAX_UNSOLIC
              else unsolicQ[..] == old(unsolicQ[..]) && unsolicWp == old(unsolicWp)
    {
      var cad := e.ex % 16;
      if codecs[cad].Absent? {
        return false;
      }
      if (e.ex / 16) % 2 == 1 {
        unsolicQ[unsolicWp] := cad * 0x1_0000 + (e.response / 0x400_0000) % 0x1_0000;
        unsolicWp := unsolicWp + 1;
        unsolicWp := unsolicWp % MAX_UNSOLIC;
      } else if codecs[cad].Waiting? && codecs[cad].wanted > 0 && |codecs[cad].got| < codecs[cad].wanted {
        codecs[cad] := codecs[cad].(got := codecs[cad].got + [e.response]);
      }
      return true;
    }

    /** Queues the verbs not yet sent, from `sent` on, as far as there is room before the
        hardware's read position `rp`: all of them or as many as fit, in ring order and
        never onto the slot being read. */
    method PushVerbs(verbs: seq<nat>, sent: nat, rp: nat) returns (now: nat)
      requires Valid() && sent <= |verbs| && rp < corb.Length
      modifies this`corbWp, corb
      ensures Valid() && sent <= now <= |verbs|
      ensures var free := corb.Length - 1 - Dist(corb.Length, rp, old(corbWp));
              now - sent <= free && (now - sent == free || now == |verbs|)
      ensures corbWp == Ahead(corb.Length, old(corbWp), now - sent) && (sent < now ==> corbWp != rp)
      ensures Range(corb[..], old(corbWp), corbWp) == verbs[sent..now]
      ensures forall i :: 0 <= i < corb.Length && Dist(corb.Length, old(corbWp), i) > now - sent ==>
                corb[i] == old(corb[i])
    {
      hide Range, Pushed, Dist, Ahead;
      var size := corb.Length;
      ghost var w0, c0, free := corbWp, corb[..], size - 1 - Dist(size, rp, corbWp);
      now := sent;
      PushedNothing(c0, w0);
      RoomLeft(size, w0, rp, 0);
      assert verbs[sent..sent] == [];
      while now != |verbs| && (corbWp + 1) % size != rp
        invariant sent <= now <= |verbs| && now - sent <= free
        invariant Valid() && corbWp == Ahead(size, w0, now - sent) && (sent < now ==> corbWp != rp)
        invariant Pushed(c0, corb[..], w0, verbs[sent..now])
      {
        RoomLeft(size, w0, rp, now - sent);
        RoomLeft(size, w0, rp, now - sent + 1);
        PushedNext(c0, corb[..], w0, verbs[sent..now], verbs[now]);
        assert verbs[sent..now] + [verbs[now]] == verbs[sent..now + 1];
        corbWp := corbWp + 1;
        corbWp := corbWp % size;
        corb[corbWp] := verbs[now];
        now := now + 1;
      }
      RoomLeft(size, w0, rp, now - sent);
      PushedAll(c0, corb[..], w0, verbs[sent..now]);
    }
  }

  /** The ring once `items` have been written after `w0`. */
  ghost predicate Pushed(c0: seq<nat>, c: seq<nat>, w0: nat, items: seq<nat>) {
    && |c| == |c0| && w0 < |c| && |items| < |c|
    && (forall i :: 1 <= i <= |items| ==> c[Ahead(|c|, w0, i)] == items[i - 1])
    && (forall i :: 0 <= i < |c| && Dist(|c|, w0, i) > |items| ==> c[i] == c0[i])
  }

  lemma PushedNothing(c0: seq<nat>, w0: nat)
    requires w0 < |c0|
    ensures Pushed(c0, c0, w0, [])
  {
  }

  lemma PushedNext(c0: seq<nat>, c: seq<nat>, w0: nat, items: seq<nat>, v: nat)
    requires Pushed(c0, c, w0, items) && |items| + 1 < |c|
    ensures Ahead(|c|, w0, |items| + 1) < |c|
    ensures Pushed(c0, c[Ahead(|c|, w0, |items| + 1) := v], w0, items + [v])
  {
  }

  lemma PushedAll(c0: seq<nat>, c: seq<nat>, w0: nat, items: seq<nat>)
    requires Pushed(c0, c, w0, items)
    ensures Ahead(|c|, w0, |items|) < |c| && Range(c, w0, Ahead(|c|, w0, |items|)) == items
    ensures forall i :: 0 <= i < |c| && Dist(|c|, w0, i) > |items| ==> c[i] == c0[i]
  {
    SlotsMakeRange(c, w0, items);
  }

  /** `n` slots on from `w0` there is one more before the one being read, unless all that were
      free are used. */
  lemma RoomLeft(size: nat, w0: nat, rp: nat, n: nat)
    requires w0 < size && rp < size
    ensures 0 <= Dist(size, rp, w0) < size
    ensures n <= size - 1 - Dist(size, rp, w0) ==>
              && Ahead(size, w0, n) < size && (n > 0 ==> Ahead(size, w0, n) != rp)
              && ((Ahead(size, w0, n) + 1) % size == rp <==> n == size - 1 - Dist(size, rp, w0))
              && (n + 1 < size ==> Ahead(size, w0, n + 1) == (Ahead(size, w0, n) + 1) % size)
    ensures Ahead(size, w0, 0) == w0
  {
    if n <= size - 1 - Dist(size, rp, w0) {
      var at := Ahead(size, w0, n);
      AfterIsAhead(size, at);
      if at + 1 == size {
        assert (at + 1) % size == 0;
      }
    }
  }
}
