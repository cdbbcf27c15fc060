/** The bytes of a 32-bit register, as the kernel's shifts and masks pick them out. */
module PciBytes {

  type Byte = b: bv32 | b <= 0xff

  /** `v` shifted down, and up, by `k` whole bytes. */
  function Shr(v: bv32, k: nat): bv32
    requires k < 4
  {
    if k == 0 then v else if k == 1 then v >> 8 else if k == 2 then v >> 16 else v >> 24
  }

  function Shl(v: bv32, k: nat): bv32
    requires k < 4
  {
    if k == 0 then v else if k == 1 then v << 8 else if k == 2 then v << 16 else v << 24
  }

  function ByteOf(v: bv32, k: nat): Byte
    requires k < 4
  {
    Shr(v, k) & 0xff
  }

  /** The read-modify-write of one byte. */
  function SetByte(v: bv32, k: nat, b: Byte): bv32
    requires k < 4
  {
    (v & !Shl(0xff, k)) | Shl(b, k)
  }

  lemma Set0(v: bv32, b: Byte)
    ensures ByteOf(SetByte(v, 0, b), 0) == b
    ensures ByteOf(SetByte(v, 0, b), 1) == ByteOf(v, 1)
    ensures ByteOf(SetByte(v, 0, b), 2) == ByteOf(v, 2)
    ensures ByteOf(SetByte(v, 0, b), 3) == ByteOf(v, 3)
  {
  }

  lemma Set1(v: bv32, b: Byte)
    ensures ByteOf(SetByte(v, 1, b), 0) == ByteOf(v, 0)
    ensures ByteOf(SetByte(v, 1, b), 1) == b
    ensures ByteOf(SetByte(v, 1, b), 2) == ByteOf(v, 2)
    ensures ByteOf(SetByte(v, 1, b), 3) == ByteOf(v, 3)
  {
  }

  lemma Set2(v: bv32, b: Byte)
    ensures ByteOf(SetByte(v, 2, b), 0) == ByteOf(v, 0)
    ensures ByteOf(SetByte(v, 2, b), 1) == ByteOf(v, 1)
    ensures ByteOf(SetByte(v, 2, b), 2) == b
    ensures ByteOf(SetByte(v, 2, b), 3) == ByteOf(v, 3)
  {
  }

  lemma Set3(v: bv32, b: Byte)
    ensures ByteOf(SetByte(v, 3, b), 0) == ByteOf(v, 0)
    ensures ByteOf(SetByte(v, 3, b), 1) == ByteOf(v, 1)
    ensures ByteOf(SetByte(v, 3, b), 2) == ByteOf(v, 2)
    ensures ByteOf(SetByte(v, 3, b), 3) == b
  {
  }

  lemma SetByteSets(v: bv32, k: nat, b: Byte, j: nat)
    requires k < 4 && j < 4
    ensures ByteOf(SetByte(v, k, b), j) == if j == k then b else ByteOf(v, j)
  {
    hide ByteOf, SetByte;
    Set0(v, b);
    Set1(v, b);
    Set2(v, b);
    Set3(v, b);
  }

  lemma ShiftDrops(v: bv32, j: nat)
    requires j < 3
    ensures ByteOf(v >> 8, j) == ByteOf(v, j + 1)
  {
  }

  lemma ShrDrops(v: bv32, k: nat, j: nat)
    requires k + j < 4
    ensures ByteOf(Shr(v, k), j) == ByteOf(v, k + j)
  {
    hide ByteOf;
    Drop1(v);
    Drop2(v);
  }

  lemma Drop1(v: bv32)
    ensures ByteOf(Shr(v, 1), 0) == ByteOf(v, 1) && ByteOf(Shr(v, 1), 1) == ByteOf(v, 2) &&
            ByteOf(Shr(v, 1), 2) == ByteOf(v, 3)
  {
  }

  lemma Drop2(v: bv32)
    ensures ByteOf(Shr(v, 2), 0) == ByteOf(v, 2) && ByteOf(Shr(v, 2), 1) == ByteOf(v, 3) &&
            ByteOf(Shr(v, 3), 0) == ByteOf(v, 3)
    ensures Shr(v, 0) == v
  {
  }

  lemma BytesMakeAll(v: bv32, w: bv32)
    requires ByteOf(v, 0) == ByteOf(w, 0) && ByteOf(v, 1) == ByteOf(w, 1)
    requires ByteOf(v, 2) == ByteOf(w, 2) && ByteOf(v, 3) == ByteOf(w, 3)
    ensures v == w
  {
  }

  /** Four bytes of a buffer taken as one little-endian register value. */
  function Joined(b0: Byte, b1: Byte, b2: Byte, b3: Byte): bv32 {
    b0 | (b1 << 8) | (b2 << 16) | (b3 << 24)
  }

  lemma JoinedHas(b0: Byte, b1: Byte, b2: Byte, b3: Byte)
    ensures var v := Joined(b0, b1, b2, b3);
            ByteOf(v, 0) == b0 && ByteOf(v, 1) == b1 && ByteOf(v, 2) == b2 && ByteOf(v, 3) == b3
  {
  }

  /** Setting all four bytes leaves nothing of the old value. */
  lemma JoinedSets(v: bv32, b0: Byte, b1: Byte, b2: Byte, b3: Byte)
    ensures SetByte(SetByte(SetByte(SetByte(v, 0, b0), 1, b1), 2, b2), 3, b3) == Joined(b0, b1, b2, b3)
  {
    hide ByteOf, SetByte, Joined;
    var v1 := SetByte(v, 0, b0);
    var v2 := SetByte(v1, 1, b1);
    var v3 := SetByte(v2, 2, b2);
    Set0(v, b0);
    Set1(v1, b1);
    Set2(v2, b2);
    Set3(v3, b3);
    JoinedHas(b0, b1, b2, b3);
    BytesMakeAll(SetByte(v3, 3, b3), Joined(b0, b1, b2, b3));
  }
}
