/** The circular DMA buffer of an output stream: positions, writes, and the arithmetic of
    GetAdvance. */
module RingModel {
  import opened WaveModel

  /** `x` modulo `size`, for the sums of two positions that occur here. */
  function Wrap(size: nat, x: nat): nat
    requires x <= 2 * size
  {
    if x < size then x else if x < 2 * size then x - size else x - 2 * size
  }

  lemma WrapIsMod(size: nat, x: nat)
    requires 0 < size && x <= 2 * size
    ensures Wrap(size, x) == x % size
  {
    if x < size {
      ModIs(size, 0, x);
    } else if x < 2 * size {
      ModIs(size, 1, x - size);
    } else {
      ModIs(size, 2, 0);
    }
  }

  lemma ModIs(size: nat, k: nat, r: nat)
    requires r < size && k <= 2
    ensures (k * size + r) % size == r
  {
    if k > 0 {
      var y := (k - 1) * size + r;
      ModIs(size, k - 1, r);
      assert (y + size) % size == y % size;
    }
  }

  /** How far `j` lies beyond `at`, going round the ring. */
  function Offset(size: nat, at: nat, j: nat): nat
    requires at <= size && j < size
  {
    if at <= j then j - at else j + size - at
  }

  /** `after` is `before` with `data` written from `at` on, going round the ring. */
  ghost predicate Wrote(before: seq<Byte>, after: seq<Byte>, at: nat, data: seq<Byte>)
    requires at <= |before|
  {
    && |after| == |before|
    && (forall j :: 0 <= j < |before| ==>
          var o := Offset(|before|, if at == |before| then 0 else at, j);
          after[j] == if o < |data| then data[o] else before[j])
  }

  /** `ring` with `data` in place of the bytes from `dst` on, no going round. */
  function Spliced(ring: seq<Byte>, dst: nat, data: seq<Byte>): (r: seq<Byte>)
    requires dst + |data| <= |ring|
    ensures |r| == |ring|
  {
    ring[..dst] + data + ring[dst + |data|..]
  }

  lemma SplicedTwice(ring: seq<Byte>, dst: nat, a: seq<Byte>, b: seq<Byte>)
    requires dst + |a| + |b| <= |ring|
    ensures Spliced(Spliced(ring, dst, a), dst + |a|, b) == Spliced(ring, dst, a + b)
  {
  }

  lemma SplicedWrote(ring: seq<Byte>, dst: nat, data: seq<Byte>)
    requires dst + |data| <= |ring|
    ensures Wrote(ring, Spliced(ring, dst, data), dst, data)
  {
  }

  /** Two pieces, to the end of the ring and on from its start; the second only after a whole
      first. */
  lemma SplicedAround(ring: seq<Byte>, at: nat, a: seq<Byte>, b: seq<Byte>)
    requires at + |a| <= |ring| && |a| + |b| <= |ring| && (at + |a| < |ring| ==> b == [])
    ensures |b| <= |ring| && Wrote(ring, Spliced(Spliced(ring, at, a), 0, b), at, a + b)
  {
  }

  /** The ring holds `data` from `at` on. */
  ghost predicate HoldsAt(ring: seq<Byte>, at: nat, data: seq<Byte>)
    requires at <= |ring| && |data| <= |ring|
  {
    forall i :: 0 <= i < |data| ==> ring[Wrap(|ring|, at + i)] == data[i]
  }

  lemma WroteHolds(before: seq<Byte>, after: seq<Byte>, at: nat, data: seq<Byte>)
    requires at <= |before| && |data| <= |before| && Wrote(before, after, at, data)
    ensures HoldsAt(after, at, data)
  {
  }

  /** The bytes written, their positions taken modulo the size. */
  lemma WroteMod(before: seq<Byte>, after: seq<Byte>, at: nat, data: seq<Byte>)
    requires 0 < |before| && at <= |before| && |data| <= |before| && Wrote(before, after, at, data)
    ensures forall i :: 0 <= i < |data| ==> after[(at + i) % |before|] == data[i]
    ensures Wrap(|before|, at + |data|) == (at + |data|) % |before|
  {
    WroteHolds(before, after, at, data);
    WrapIsMod(|before|, at + |data|);
    forall i | 0 <= i < |data|
      ensures after[(at + i) % |before|] == data[i]
    {
      WrapIsMod(|before|, at + i);
    }
  }

  /** A write leaves alone whatever lies in the `room` it does not reach. */
  lemma WroteKeeps(before: seq<Byte>, after: seq<Byte>, from: nat, kept: seq<Byte>, at: nat, data: seq<Byte>)
    requires from <= |before| && at <= |before| && |kept| + |data| <= |before|
    requires Wrap(|before|, from + |kept|) == Wrap(|before|, at)
    requires HoldsAt(before, from, kept) && Wrote(before, after, at, data)
    ensures HoldsAt(after, from, kept + data)
  {
  }

  // ---------------------------------------------------------------------------
  // GetAdvance
  // ---------------------------------------------------------------------------

  /** The most the DMA cursor can advance without passing the transfer cursor. */
  function MaxAdvance(size: nat, last: nat, cursor: nat): nat
    requires last <= size
  {
    if last < cursor then cursor - last else size + cursor - last
  }

  /** How far the DMA cursor has moved since it was last read. */
  function Moved(size: nat, last: nat, dma: nat): nat
    requires last <= size
  {
    if dma >= last then dma - last else size + dma - last
  }

  /** Too much time has passed, or the DMA cursor is past the transfer cursor. */
  predicate Underflow(size: nat, last: nat, cursor: nat, dma: nat, late: bool)
    requires last <= size
  {
    late || Moved(size, last, dma) > MaxAdvance(size, last, cursor)
  }

  /** Bytes still ahead of the DMA cursor when there is no underflow. */
  function Ahead(size: nat, last: nat, cursor: nat, dma: nat): int
    requires last <= size
  {
    MaxAdvance(size, last, cursor) - Moved(size, last, dma)
  }

  function AdvanceOf(size: nat, last: nat, cursor: nat, dma: nat, late: bool): nat
    requires last <= size
  {
    if Underflow(size, last, cursor, dma, late) then MaxAdvance(size, last, cursor) else Moved(size, last, dma)
  }

  function RoomOf(size: nat, last: nat, cursor: nat, dma: nat, late: bool): int
    requires last <= size
  {
    if Underflow(size, last, cursor, dma, late) then size else size - Ahead(size, last, cursor, dma)
  }

  /** Without underflow the bytes ahead of the DMA cursor reach exactly to the transfer
      cursor, and with the room they make up the whole ring. */
  lemma RoomIsComplement(size: nat, last: nat, cursor: nat, dma: nat)
    requires 0 < size && last <= size && cursor <= size && dma <= size
    requires !Underflow(size, last, cursor, dma, false)
    ensures var ahead := Ahead(size, last, cursor, dma);
            && 0 <= ahead <= size
            && RoomOf(size, last, cursor, dma, false) + ahead == size
            && Wrap(size, dma + ahead) == Wrap(size, cursor)
  {
  }

  /** So neither a transfer into the room nor the silence written there touches a byte the
      DMA engine has yet to play. */
  lemma RoomIsDisjoint(size: nat, last: nat, cursor: nat, dma: nat, i: nat, j: nat)
    requires 0 < size && last <= size && cursor <= size && dma <= size
    requires !Underflow(size, last, cursor, dma, false)
    requires i < Ahead(size, last, cursor, dma) && j < RoomOf(size, last, cursor, dma, false)
    ensures Wrap(size, dma + i) != Wrap(size, cursor + j)
  {
  }

  /** The silence that pads a nearly drained buffer is one eighth of it, fits in the room,
      and both its pieces lie in the buffer. */
  lemma PaddingFits(size: nat, last: nat, cursor: nat, dma: nat)
    requires 0 < size && last <= size && cursor <= size && dma <= size
    requires !Underflow(size, last, cursor, dma, false)
    requires Ahead(size, last, cursor, dma) <= size / 8
    ensures size / 8 <= RoomOf(size, last, cursor, dma, false)
    ensures cursor + size / 8 > size ==>
              0 <= size - cursor && 0 < cursor + size / 8 - size <= cursor
              && (size - cursor) + (cursor + size / 8 - size) == size / 8
  {
  }

  /** What the next reading will take for the bytes ahead, once `n` bytes went into the room,
      is what is ahead, exactly if something is; but after a reading equal to the buffer size
      only if the buffer is not full, for a full one then counts as empty. */
  lemma NextDistanceIff(size: nat, last: nat, cursor: nat, dma: nat, n: nat)
    requires 0 < size && last <= size && cursor <= size && dma <= size
    requires !Underflow(size, last, cursor, dma, false) && n <= RoomOf(size, last, cursor, dma, false)
    ensures var ahead := Ahead(size, last, cursor, dma) + n;
            MaxAdvance(size, dma, Wrap(size, cursor + n)) == ahead <==> if dma < size then 0 < ahead else ahead < size
  {
  }

  /** A case: the ring has been played to its end, read as its size, and filled; eight bytes are
      ahead, and the next reading will take them for none. */
  lemma FullRingCountsAsEmpty()
    ensures !Underflow(8, 4, 0, 8, false) && RoomOf(8, 4, 0, 8, false) == 8
    ensures Ahead(8, 4, 0, 8) + 8 == 8 && MaxAdvance(8, 8, Wrap(8, 0 + 8)) == 0
  {
  }
}
