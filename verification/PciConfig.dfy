/** Configuration mechanism #1 of the PCI Local Bus Specification 3.0, section 3.2.2.3.2:
    an address latch and a 32-bit data port, through which the kernel reads and writes any
    run of bytes of a function's 256-byte configuration space.  Registers are taken to hold
    what is written to them. */
module PciConfig {
  import opened PciBytes

  const SPACE: nat := 256
  const REGISTERS: nat := 64

  // ---------------------------------------------------------------------------
  // Configuration space as bytes
  // ---------------------------------------------------------------------------

  /** The register that holds offset `o`, and the place of `o` in it. */
  function RegisterOf(o: nat): (r: nat)
    ensures r < REGISTERS
  {
    o / 4 % 64
  }

  function Lane(o: nat): (r: nat)
    ensures r < 4
  {
    o % 4
  }

  lemma Around(o: nat)
    ensures RegisterOf(o) == o % SPACE / 4 && Lane(o) == o % SPACE % 4 && o % SPACE == RegisterOf(o) * 4 + Lane(o)
  {
    var q, r := o / SPACE, o % SPACE;
    assert o == 4 * (64 * q + r / 4) + r % 4;
    assert o / 4 == 64 * q + r / 4;
  }

  function Bytes(regs: seq<bv32>): (r: seq<Byte>)
    requires |regs| == REGISTERS
    ensures |r| == SPACE
  {
    seq(SPACE, i requires 0 <= i < SPACE => ByteOf(regs[RegisterOf(i)], Lane(i)))
  }

  /** `d` written into `bytes` one after another from `o` on, around the end. */
  function Written(bytes: seq<Byte>, o: nat, d: seq<Byte>): (r: seq<Byte>)
    requires |bytes| == SPACE
    ensures |r| == SPACE
    decreases |d|
  {
    if d == [] then bytes else Written(bytes[o % SPACE := d[0]], o + 1, d[1..])
  }

  function ReadFrom(bytes: seq<Byte>, o: nat, n: nat): (r: seq<Byte>)
    requires |bytes| == SPACE
    ensures |r| == n
  {
    seq(n, i => bytes[(o + i) % SPACE])
  }

  /** How far beyond `o` position `i` lies, around the end. */
  function Beyond(o: nat, i: nat): nat
    requires i < SPACE
  {
    if o % SPACE <= i then i - o % SPACE else i + SPACE - o % SPACE
  }

  /** A write of at most the whole space changes exactly the bytes it names. */
  lemma {:induction false} WrittenAt(bytes: seq<Byte>, o: nat, d: seq<Byte>, i: nat)
    requires |bytes| == SPACE && |d| <= SPACE && i < SPACE
    ensures Written(bytes, o, d)[i] == if Beyond(o, i) < |d| then d[Beyond(o, i)] else bytes[i]
    decreases |d|
  {
    if d != [] {
      WrittenAt(bytes[o % SPACE := d[0]], o + 1, d[1..], i);
      NextBeyond(o, i);
    }
  }

  lemma NextBeyond(o: nat, i: nat)
    requires i < SPACE
    ensures Beyond(o, i) == 0 <==> i == o % SPACE
    ensures Beyond(o + 1, i) == if i == o % SPACE then SPACE - 1 else Beyond(o, i) - 1
  {
    if o % SPACE == SPACE - 1 {
      assert (o + 1) % SPACE == 0;
    } else {
      assert (o + 1) % SPACE == o % SPACE + 1;
    }
  }

  lemma BeyondOf(o: nat, k: nat)
    requires k < SPACE
    ensures Beyond(o, (o + k) % SPACE) == k
  {
    var r := o % SPACE + k;
    if r < SPACE {
      assert (o + k) % SPACE == r;
    } else {
      assert (o + k) % SPACE == r - SPACE;
    }
  }

  /** What was written is read back. */
  lemma ReadBack(bytes: seq<Byte>, o: nat, d: seq<Byte>)
    requires |bytes| == SPACE && |d| <= SPACE
    ensures ReadFrom(Written(bytes, o, d), o, |d|) == d
  {
    hide Written, Beyond;
    forall k | 0 <= k < |d|
      ensures ReadFrom(Written(bytes, o, d), o, |d|)[k] == d[k]
    {
      WrittenAt(bytes, o, d, (o + k) % SPACE);
      BeyondOf(o, k);
    }
  }

  // ---------------------------------------------------------------------------
  // Configuration space as registers
  // ---------------------------------------------------------------------------

  function StoreByte(regs: seq<bv32>, o: nat, b: Byte): (r: seq<bv32>)
    requires |regs| == REGISTERS
    ensures |r| == REGISTERS
  {
    regs[RegisterOf(o) := SetByte(regs[RegisterOf(o)], Lane(o), b)]
  }

  function Stored(regs: seq<bv32>, o: nat, d: seq<Byte>): (r: seq<bv32>)
    requires |regs| == REGISTERS
    ensures |r| == REGISTERS
    decreases |d|
  {
    if d == [] then regs else Stored(StoreByte(regs, o, d[0]), o + 1, d[1..])
  }

  lemma {:induction false} StoredJoin(regs: seq<bv32>, o: nat, a: seq<Byte>, b: seq<Byte>)
    requires |regs| == REGISTERS
    ensures Stored(regs, o, a + b) == Stored(Stored(regs, o, a), o + |a|, b)
    decreases |a|
  {
    hide StoreByte;
    if a == [] {
      assert a + b == b;
    } else {
      assert (a + b)[1..] == a[1..] + b;
      StoredJoin(StoreByte(regs, o, a[0]), o + 1, a[1..], b);
    }
  }

  lemma StoreByteIs(regs: seq<bv32>, o: nat, b: Byte)
    requires |regs| == REGISTERS
    ensures Bytes(StoreByte(regs, o, b)) == Bytes(regs)[o % SPACE := b]
  {
    hide ByteOf, SetByte, RegisterOf, Lane;
    Around(o);
    forall j | 0 <= j < SPACE
      ensures Bytes(StoreByte(regs, o, b))[j] == Bytes(regs)[o % SPACE := b][j]
    {
      Around(j);
      SetByteSets(regs[RegisterOf(o)], Lane(o), b, Lane(j));
    }
  }

  lemma {:induction false} StoredIs(regs: seq<bv32>, o: nat, d: seq<Byte>)
    requires |regs| == REGISTERS
    ensures Bytes(Stored(regs, o, d)) == Written(Bytes(regs), o, d)
    decreases |d|
  {
    hide StoreByte, Bytes;
    if d != [] {
      StoreByteIs(regs, o, d[0]);
      StoredIs(StoreByte(regs, o, d[0]), o + 1, d[1..]);
    }
  }

  // ---------------------------------------------------------------------------
  // The ports
  // ---------------------------------------------------------------------------

  datatype Spot = Spot(bus: nat, device: nat, func: nat)

  /** The function the fields of an address can name. */
  function SpotOf(bus: nat, device: nat, func: nat): Spot { Spot(bus % 256, device % 32, func % 8) }

  /** The 32-bit word for the address latch. */
  function Address(s: Spot, register: nat): nat {
    0x8000_0000 + s.bus % 256 * 0x1_0000 + s.device % 32 * 0x800 + s.func % 8 * 0x100 + register % 64 * 4
  }

  function Enabled(latch: nat): bool { latch / 0x8000_0000 % 2 == 1 }

  function Named(latch: nat): Spot { Spot(latch / 0x1_0000 % 256, latch / 0x800 % 32, latch / 0x100 % 8) }

  function Register(latch: nat): nat { latch / 4 % 64 }

  /** The latch names the function and register the address was built for. */
  lemma AddressNames(s: Spot, register: nat)
    ensures Enabled(Address(s, register)) && Named(Address(s, register)) == SpotOf(s.bus, s.device, s.func)
    ensures Register(Address(s, register)) == register % 64
    ensures Address(s, register) < 0x1_0000_0000
  {
    Fields(s.bus % 256, s.device % 32, s.func % 8, register % 64);
  }

  lemma Fields(b: nat, d: nat, f: nat, r: nat)
    requires b < 256 && d < 32 && f < 8 && r < 64
    ensures var a := 0x8000_0000 + b * 0x1_0000 + d * 0x800 + f * 0x100 + r * 4;
            && a / 4 == 0x2000_0000 + b * 0x4000 + d * 0x200 + f * 0x40 + r &&
              a / 0x100 == 0x80_0000 + b * 0x100 + d * 8 + f
            && a / 0x800 == 0x10_0000 + b * 0x20 + d && a / 0x1_0000 == 0x8000 + b && a / 0x8000_0000 == 1
  {
  }

  type Spaces = map<Spot, seq<bv32>>

  predicate Whole(m: Spaces) {
    forall s :: s in m ==> |m[s]| == REGISTERS
  }

  /** The registers of a function; an absent one reads as all ones. */
  function Bank(m: Spaces, s: Spot): (r: seq<bv32>)
    requires Whole(m)
    ensures |r| == REGISTERS
  {
    if s in m then m[s] else seq(REGISTERS, i => 0xffff_ffff)
  }

  /** A write to an absent function is lost. */
  function Put(m: Spaces, s: Spot, o: nat, d: seq<Byte>): (r: Spaces)
    requires Whole(m)
    ensures Whole(r)
  {
    if s in m then m[s := Stored(m[s], o, d)] else m
  }

  lemma PutJoin(m: Spaces, s: Spot, o: nat, a: seq<Byte>, b: seq<Byte>)
    requires Whole(m)
    ensures Put(m, s, o, a + b) == Put(Put(m, s, o, a), s, o + |a|, b)
  {
    if s in m {
      StoredJoin(m[s], o, a, b);
    }
  }

  class Ports {
    var latch: nat
    var spaces: Spaces

    method WriteAddress(a: nat)
      modifies this`latch
      ensures latch == a
    {
      latch := a;
    }

    method ReadData() returns (v: bv32)
      requires Whole(spaces)
      ensures v == if Enabled(latch) then Bank(spaces, Named(latch))[Register(latch)] else 0xffff_ffff
    {
      if Enabled(latch) && Named(latch) in spaces {
        return spaces[Named(latch)][Register(latch)];
      }
      return 0xffff_ffff;
    }

    method WriteData(v: bv32)
      requires Whole(spaces)
      modifies this`spaces
      ensures Whole(spaces)
      ensures var s := Named(latch);
              spaces == if Enabled(latch) && s in old(spaces)
                then old(spaces)[s := old(spaces)[s][Register(latch) := v]] else old(spaces)
    {
      var s := Named(latch);
      if Enabled(latch) && s in spaces {
        spaces := spaces[s := spaces[s][Register(latch) := v]];
      }
    }
  }

  // ---------------------------------------------------------------------------
  // Reading and writing runs of bytes
  // ---------------------------------------------------------------------------

  /** What moving `n` bytes between the buffer, from `p` on, and the space, from `o` on,
      does. */
  ghost predicate Transfers(m: Spaces, m': Spaces, buf: seq<Byte>, buf': seq<Byte>, s: Spot, p: nat, o: nat, n: nat,
                            writing: bool)
    requires Whole(m) && p + n <= |buf|
  {
    if writing then m' == Put(m, s, o, buf[p..p + n]) && buf' == buf
    else m' == m && buf' == Filled(buf, p, ReadFrom(Bytes(Bank(m, s)), o, n))
  }

  lemma TransfersJoin(m: Spaces, m1: Spaces, m2: Spaces, buf: seq<Byte>, buf1: seq<Byte>, buf2: seq<Byte>,
                      s: Spot, p: nat, o: nat, n: nat, k: nat, writing: bool)
    requires Whole(m) && Whole(m1) && p + n + k <= |buf| == |buf1|
    requires Transfers(m, m1, buf, buf1, s, p, o, n, writing)
    requires Transfers(m1, m2, buf1, buf2, s, p + n, o + n, k, writing)
    ensures Transfers(m, m2, buf, buf2, s, p, o, n + k, writing)
  {
    hide Put, Bytes, Bank, ReadFrom, Filled;
    if writing {
      PutJoin(m, s, o, buf[p..p + n], buf[p + n..p + n + k]);
      assert buf[p..p + n] + buf[p + n..p + n + k] == buf[p..p + n + k];
    } else {
      var bytes := Bytes(Bank(m, s));
      ReadJoin(bytes, o, n, k);
      FillJoin(buf, p, ReadFrom(bytes, o, n), ReadFrom(bytes, o + n, k));
    }
  }

  lemma ReadJoin(bytes: seq<Byte>, o: nat, n: nat, k: nat)
    requires |bytes| == SPACE
    ensures ReadFrom(bytes, o, n + k) == ReadFrom(bytes, o, n) + ReadFrom(bytes, o + n, k)
  {
  }

  lemma FillJoin(buf: seq<Byte>, p: nat, a: seq<Byte>, b: seq<Byte>)
    requires p + |a| + |b| <= |buf|
    ensures Filled(buf, p, a + b) == Filled(Filled(buf, p, a), p + |a|, b)
  {
    var once := Filled(buf, p, a);
    assert once[..p + |a|] == buf[..p] + a && once[p + |a| + |b|..] == buf[p + |a| + |b|..];
    assert buf[..p] + (a + b) == (buf[..p] + a) + b;
  }

  /** The byte `k` beyond `o` in the register that holds `o`. */
  lemma InRegister(o: nat, k: nat)
    requires Lane(o) + k < 4
    ensures RegisterOf(o + k) == RegisterOf(o) && Lane(o + k) == Lane(o) + k
  {
    assert (o + k) / 4 == o / 4;
  }

  lemma StoredOne(regs: seq<bv32>, o: nat, b: Byte)
    requires |regs| == REGISTERS
    ensures Stored(regs, o, [b]) == StoreByte(regs, o, b)
  {
    hide StoreByte;
    assert [b][1..] == [];
  }

  function SetRegister(regs: seq<bv32>, o: nat, value: bv32): (r: seq<bv32>)
    requires |regs| == REGISTERS
    ensures |r| == REGISTERS
  {
    regs[RegisterOf(o) := value]
  }

  lemma SetAgain(regs: seq<bv32>, value: bv32, o: nat, i: nat, k: nat, b: Byte, r: seq<bv32>)
    requires |regs| == REGISTERS && RegisterOf(i) == RegisterOf(o) && k == Lane(i) && r == SetRegister(regs, o, value)
    ensures StoreByte(r, i, b) == SetRegister(regs, o, SetByte(value, k, b))
  {
    hide SetByte, RegisterOf, Lane;
  }

  lemma SetNext(regs: seq<bv32>, o: nat, d: seq<Byte>, value: bv32, b: Byte)
    requires |regs| == REGISTERS && Lane(o) + |d| < 4
    requires SetRegister(regs, o, value) == Stored(regs, o, d)
    ensures SetRegister(regs, o, SetByte(value, Lane(o) + |d|, b)) == Stored(regs, o, d + [b])
  {
    hide *;
    StoredSnoc(regs, o, d, b);
    SetIn(regs, o, |d|, value, b);
  }

  lemma SetIn(regs: seq<bv32>, o: nat, n: nat, value: bv32, b: Byte)
    requires |regs| == REGISTERS && Lane(o) + n < 4
    ensures StoreByte(SetRegister(regs, o, value), o + n, b) == SetRegister(regs, o, SetByte(value, Lane(o) + n, b))
  {
    hide *;
    InRegister(o, n);
    SetAgain(regs, value, o, o + n, Lane(o) + n, b, SetRegister(regs, o, value));
  }

  lemma StoredSnoc(regs: seq<bv32>, o: nat, d: seq<Byte>, b: Byte)
    requires |regs| == REGISTERS
    ensures Stored(regs, o, d + [b]) == StoreByte(Stored(regs, o, d), o + |d|, b)
  {
    hide *;
    StoredJoin(regs, o, d, [b]);
    StoredOne(Stored(regs, o, d), o + |d|, b);
  }

  /** Four bytes stored are a whole register written. */
  lemma SetAll(regs: seq<bv32>, o: nat, d: seq<Byte>)
    requires |regs| == REGISTERS && Lane(o) == 0 && |d| == 4
    ensures SetRegister(regs, o, Joined(d[0], d[1], d[2], d[3])) == Stored(regs, o, d)
  {
    hide SetByte, Joined, Stored, RegisterOf;
    var r := RegisterOf(o);
    assert SetRegister(regs, o, regs[r]) == Stored(regs, o, []) by { NothingStored(regs, o); }
    var v1 := SetByte(regs[r], 0, d[0]);
    var v2 := SetByte(v1, 1, d[1]);
    var v3 := SetByte(v2, 2, d[2]);
    SetNext(regs, o, [], regs[r], d[0]);
    assert [] + [d[0]] == [d[0]];
    SetNext(regs, o, [d[0]], v1, d[1]);
    assert [d[0]] + [d[1]] == [d[0], d[1]];
    SetNext(regs, o, [d[0], d[1]], v2, d[2]);
    assert [d[0], d[1]] + [d[2]] == [d[0], d[1], d[2]];
    SetNext(regs, o, [d[0], d[1], d[2]], v3, d[3]);
    assert [d[0], d[1], d[2]] + [d[3]] == d;
    JoinedSets(regs[r], d[0], d[1], d[2], d[3]);
  }

  lemma NothingStored(regs: seq<bv32>, o: nat)
    requires |regs| == REGISTERS
    ensures Stored(regs, o, []) == regs == SetRegister(regs, o, regs[RegisterOf(o)])
  {
  }

  lemma ByteRead(regs: seq<bv32>, o: nat, k: nat)
    requires |regs| == REGISTERS && Lane(o) + k < 4
    ensures Bytes(regs)[(o + k) % SPACE] == ByteOf(regs[RegisterOf(o)], Lane(o) + k)
  {
    hide ByteOf, RegisterOf, Lane;
    InRegister(o, k);
    Around(o + k);
    Around((o + k) % SPACE);
  }

  /** The latched register, read through the data port. */
  method ReadRegister(ports: Ports, s: Spot, register: nat) returns (v: bv32)
    requires Whole(ports.spaces)
    modifies ports`latch
    ensures ports.latch == Address(s, register) &&
            v == Bank(ports.spaces, SpotOf(s.bus, s.device, s.func))[register % 64]
  {
    AddressNames(s, register);
    hide Address, Enabled, Named, Register, Bank;
    ports.WriteAddress(Address(s, register));
    v := ports.ReadData();
  }

  lemma LowByte(v: bv32)
    ensures v & 0xff == ByteOf(v, 0)
  {
  }

  /** One byte of a register read in turn: `value` holds the rest of register value `v`. */
  ghost predicate Rest(value: bv32, v: bv32, k: nat) {
    forall i :: k <= i < 4 ==> RestAt(value, v, k, i)
  }

  ghost predicate RestAt(value: bv32, v: bv32, k: nat, i: nat)
    requires k <= i < 4
  {
    ByteOf(value, i - k) == ByteOf(v, i)
  }

  lemma RestFirst(v: bv32, k: nat)
    requires k < 4
    ensures Rest(Shr(v, k), v, k)
  {
    forall i | k <= i < 4
      ensures RestAt(Shr(v, k), v, k, i)
    {
      ShrDrops(v, k, i - k);
    }
  }

  lemma RestAll(v: bv32)
    ensures Rest(v, v, 0)
  {
  }

  lemma RestNext(value: bv32, v: bv32, k: nat)
    requires k < 4 && Rest(value, v, k)
    ensures value & 0xff == ByteOf(v, k) && Rest(value >> 8, v, k + 1)
  {
    LowByte(value);
    assert RestAt(value, v, k, k);
    var next, k' := value >> 8, k + 1;
    forall i | k' <= i < 4
      ensures RestAt(next, v, k', i)
    {
      assert RestAt(value, v, k, i);
      ShiftDrops(value, i - k - 1);
    }
  }

  /** The buffer with the `n` bytes from `p` on read from the space. */
  function Filled(buf: seq<Byte>, p: nat, got: seq<Byte>): seq<Byte>
    requires p + |got| <= |buf|
  {
    buf[..p] + got + buf[p + |got|..]
  }

  lemma FillNext(buf: seq<Byte>, p: nat, bytes: seq<Byte>, o: nat, k: nat)
    requires |bytes| == SPACE && p + k < |buf|
    ensures Filled(buf, p, ReadFrom(bytes, o, k))[p + k := bytes[(o + k) % SPACE]]
            == Filled(buf, p, ReadFrom(bytes, o, k + 1))
  {
    assert ReadFrom(bytes, o, k + 1) == ReadFrom(bytes, o, k) + [bytes[(o + k) % SPACE]];
  }

  lemma FillNone(buf: seq<Byte>, p: nat)
    requires p <= |buf|
    ensures Filled(buf, p, []) == buf
  {
  }

  /** The bytes up to the first register boundary. */
  method HeadBytes(ports: Ports, s: Spot, buf: array<Byte>, o: nat, length: nat, writing: bool) returns (p: nat)
    requires Whole(ports.spaces) && Lane(o) != 0 && length <= buf.Length
    modifies ports, buf
    ensures Whole(ports.spaces) && p == (if length < 4 - Lane(o) then length else 4 - Lane(o))
    ensures Transfers(old(ports.spaces), ports.spaces, old(buf[..]), buf[..], SpotOf(s.bus, s.device, s.func), 0, o, p,
            writing)
  {
    hide ByteOf, SetByte, Stored, StoreByte, Shr, Filled, Rest, Bytes, Address, Enabled, Named, Register, ReadFrom;
    ghost var b0, regs := buf[..], Bank(ports.spaces, SpotOf(s.bus, s.device, s.func));
    var value := ReadRegister(ports, s, o / 4);
    ghost var v0 := value;
    if !writing {
      RestFirst(value, Lane(o));
      value := Shr(value, Lane(o));
    }
    var offset, left := o, length;
    p := 0;
    NothingStored(regs, o);
    NothingRead(Bytes(regs), o);
    FillNone(b0, 0);
    while offset % 4 != 0 && left > 0
      invariant 0 <= p <= 4 - Lane(o) && p + left == length && offset == o + p
      invariant ports.spaces == old(ports.spaces) && ports.latch == Address(s, o / 4)
      invariant writing ==> SetRegister(regs, o, value) == Stored(regs, o, buf[..p]) && buf[..] == b0
      invariant !writing ==> buf[..] == Filled(b0, 0, ReadFrom(Bytes(regs), o, p)) && Rest(value, v0, Lane(o) + p)
      decreases left
    {
      if writing {
        SetNext(regs, o, buf[..p], value, buf[p]);
        assert buf[..p] + [buf[p]] == buf[..p + 1];
        value := SetByte(value, offset % 4, buf[p]);
      } else {
        RestNext(value, v0, Lane(o) + p);
        ByteRead(regs, o, p);
        FillNext(b0, 0, Bytes(regs), o, p);
        buf[p] := value & 0xff;
        value := value >> 8;
      }
      p, offset, left := p + 1, offset + 1, left - 1;
    }
    if writing {
      AddressNames(s, o / 4);
      ports.WriteData(value);
    }
  }

  lemma NothingRead(bytes: seq<Byte>, o: nat)
    requires |bytes| == SPACE
    ensures ReadFrom(bytes, o, 0) == []
  {
  }

  lemma TransfersNone(m: Spaces, m': Spaces, buf: seq<Byte>, buf': seq<Byte>, s: Spot, p: nat, o: nat, writing: bool)
    requires Whole(m) && p <= |buf|
    ensures Transfers(m, m', buf, buf', s, p, o, 0, writing) <==> m' == m && buf' == buf
  {
    NothingRead(Bytes(Bank(m, s)), o);
    FillNone(buf, p);
    hide Filled, ReadFrom, Bytes;
    assert buf[p..p + 0] == [];
    if s in m {
      NothingStored(m[s], o);
      assert m == m[s := m[s]];
    }
  }

  lemma Aligned(r: nat)
    ensures Lane(4 * r) == 0 && RegisterOf(4 * r) == r % 64 && 4 * r / 4 == r
  {
  }

  /** One whole register. */
  method Long(ports: Ports, s: Spot, buf: array<Byte>, p: nat, long: nat, writing: bool)
    requires Whole(ports.spaces) && p + 4 <= buf.Length
    modifies ports, buf
    ensures Whole(ports.spaces)
    ensures Transfers(old(ports.spaces), ports.spaces, old(buf[..]), buf[..], SpotOf(s.bus, s.device, s.func), p,
            4 * long, 4, writing)
  {
    hide ByteOf, Stored, Filled, Bytes, Address, Enabled, Named, Register, ReadFrom, Joined, RegisterOf, Lane;
    ghost var b0, regs := buf[..], Bank(ports.spaces, SpotOf(s.bus, s.device, s.func));
    AddressNames(s, long);
    Aligned(long);
    if writing {
      SetAll(regs, 4 * long, b0[p..p + 4]);
      ports.WriteAddress(Address(s, long));
      ports.WriteData(Joined(buf[p], buf[p + 1], buf[p + 2], buf[p + 3]));
    } else {
      var value := ReadRegister(ports, s, long);
      buf[p], buf[p + 1], buf[p + 2], buf[p + 3] := ByteOf(value, 0), ByteOf(value, 1), ByteOf(value, 2),
        ByteOf(value, 3);
      FourRead(regs, 4 * long);
      assert buf[..] == Filled(b0, p, ReadFrom(Bytes(regs), 4 * long, 4)) by {
        FourFilled(b0, p, ByteOf(value, 0), ByteOf(value, 1), ByteOf(value, 2), ByteOf(value, 3));
      }
    }
  }

  lemma FourRead(regs: seq<bv32>, o: nat)
    requires |regs| == REGISTERS && Lane(o) == 0
    ensures var v := regs[RegisterOf(o)];
            ReadFrom(Bytes(regs), o, 4) == [ByteOf(v, 0), ByteOf(v, 1), ByteOf(v, 2), ByteOf(v, 3)]
  {
    hide ByteOf, Bytes, RegisterOf, Lane;
    ByteRead(regs, o, 0);
    ByteRead(regs, o, 1);
    ByteRead(regs, o, 2);
    ByteRead(regs, o, 3);
  }

  lemma FourFilled(buf: seq<Byte>, p: nat, a: Byte, b: Byte, c: Byte, d: Byte)
    requires p + 4 <= |buf|
    ensures Filled(buf, p, [a, b, c, d]) == buf[p := a][p + 1 := b][p + 2 := c][p + 3 := d]
  {
  }

  /** Whole registers, from register `long0` on. */
  method Longs(ports: Ports, s: Spot, buf: array<Byte>, p0: nat, long0: nat, length: nat, writing: bool)
    returns (p: nat, long: nat)
    requires Whole(ports.spaces) && p0 + length <= buf.Length
    modifies ports, buf
    ensures Whole(ports.spaces) && p == p0 + 4 * (long - long0) && long == long0 + length / 4
    ensures Transfers(old(ports.spaces), ports.spaces, old(buf[..]), buf[..], SpotOf(s.bus, s.device, s.func), p0,
            4 * long0, p - p0, writing)
  {
    hide *;
    ghost var spot := SpotOf(s.bus, s.device, s.func);
    p, long := p0, long0;
    var left := length;
    TransfersNone(ports.spaces, ports.spaces, buf[..], buf[..], spot, p0, 4 * long0, writing);
    while left >= 4
      invariant p0 <= p && p + left == p0 + length && Whole(ports.spaces)
      invariant long0 <= long && p == p0 + 4 * (long - long0)
      invariant Transfers(old(ports.spaces), ports.spaces, old(buf[..]), buf[..], spot, p0, 4 * long0, p - p0, writing)
      decreases left
    {
      ghost var m, b := ports.spaces, buf[..];
      Long(ports, s, buf, p, long, writing);
      TransfersJoin(old(ports.spaces), m, ports.spaces, old(buf[..]), b, buf[..], spot, p0, 4 * long0, p - p0, 4,
        writing);
      p, left, long := p + 4, left - 4, long + 1;
    }
  }

  /** The bytes left over, in register `long`. */
  method TailBytes(ports: Ports, s: Spot, buf: array<Byte>, p0: nat, long: nat, length: nat, writing: bool)
    returns (p: nat)
    requires Whole(ports.spaces) && 0 < length < 4 && p0 + length <= buf.Length
    modifies ports, buf
    ensures Whole(ports.spaces) && p == p0 + length
    ensures Transfers(old(ports.spaces), ports.spaces, old(buf[..]), buf[..], SpotOf(s.bus, s.device, s.func), p0,
            4 * long, length, writing)
  {
    hide ByteOf, SetByte, Stored, StoreByte, Shr, Filled, Rest, Bytes, Address, Enabled, Named, Register, ReadFrom,
         RegisterOf;
    ghost var b0, regs := buf[..], Bank(ports.spaces, SpotOf(s.bus, s.device, s.func));
    Aligned(long);
    var value := ReadRegister(ports, s, long);
    ghost var v0 := value;
    RestAll(value);
    var offset, left := 0, length;
    p := p0;
    NothingStored(regs, 4 * long);
    NothingRead(Bytes(regs), 4 * long);
    FillNone(b0, p0);
    assert buf[p0..p] == [];
    while left > 0
      invariant p == p0 + offset && offset + left == length && 0 <= offset
      invariant ports.spaces == old(ports.spaces) && ports.latch == Address(s, long)
      invariant writing ==> SetRegister(regs, 4 * long, value) == Stored(regs, 4 * long, buf[p0..p]) && buf[..] == b0
      invariant !writing ==>
                  buf[..] == Filled(b0, p0, ReadFrom(Bytes(regs), 4 * long, offset)) && Rest(value, v0, offset)
      decreases left
    {
      if writing {
        SetNext(regs, 4 * long, buf[p0..p], value, buf[p]);
        assert buf[p0..p] + [buf[p]] == buf[p0..p + 1];
        value := SetByte(value, offset % 4, buf[p]);
      } else {
        RestNext(value, v0, offset);
        ByteRead(regs, 4 * long, offset);
        FillNext(b0, p0, Bytes(regs), 4 * long, offset);
        buf[p] := value & 0xff;
        value := value >> 8;
      }
      p, offset, left := p + 1, offset + 1, left - 1;
    }
    if writing {
      AddressNames(s, long);
      ports.WriteData(value);
    }
  }

  /** Moves `length` bytes between the buffer and the function's configuration space, from
      `offset` on: up to a register boundary, then whole registers, then what is left. */
  method Type1Configuration(ports: Ports, bus: nat, device: nat, func: nat, buf: array<Byte>, offset: nat, length: nat,
                            writing: bool)
    returns (count: nat)
    requires Whole(ports.spaces) && length <= buf.Length
    modifies ports, buf
    ensures count == length && Whole(ports.spaces)
    ensures var s := SpotOf(bus, device, func);
            if writing then
              && buf[..] == old(buf[..])
              && (s !in old(ports.spaces) ==> ports.spaces == old(ports.spaces))
              && (s in old(ports.spaces) ==>
                    && s in ports.spaces && ports.spaces == old(ports.spaces)[s := ports.spaces[s]]
                    && Bytes(ports.spaces[s]) == Written(Bytes(old(ports.spaces)[s]), offset, buf[..length]))
            else
              && ports.spaces == old(ports.spaces) && buf[length..] == old(buf[length..])
              && buf[..length] == ReadFrom(Bytes(Bank(ports.spaces, s)), offset, length)
  {
    hide *;
    ghost var spot, m0, b0 := SpotOf(bus, device, func), ports.spaces, buf[..];
    var s, p, long := Spot(bus, device, func), 0, offset / 4;
    TransfersNone(m0, m0, b0, b0, spot, 0, offset, writing);
    if offset % 4 != 0 {
      LaneIs(offset);
      p := HeadBytes(ports, s, buf, offset, length, writing);
      long := long + 1;
    }
    var p1 := p;
    ghost var m1, b1 := ports.spaces, buf[..];
    var longs;
    p, longs := Longs(ports, s, buf, p1, long, length - p1, writing);
    ghost var m2, b2 := ports.spaces, buf[..];
    if p < length {
      count := TailBytes(ports, s, buf, p, longs, length - p, writing);
    } else {
      count := p;
      TransfersNone(m2, m2, b2, b2, spot, p, 4 * longs, writing);
    }
    TransfersJoin(m1, m2, ports.spaces, b1, b2, buf[..], spot, p1, 4 * long, p - p1, length - p, writing);
    if p1 == length {
      TransfersNone(m1, ports.spaces, b1, buf[..], spot, p1, 4 * long, writing);
      TransfersNone(m1, ports.spaces, b1, buf[..], spot, p1, offset + p1, writing);
    }
    TransfersJoin(m0, m1, ports.spaces, b0, b1, buf[..], spot, 0, offset, p1, length - p1, writing);
    Transferred(m0, ports.spaces, b0, buf[..], spot, offset, length, writing);
  }

  lemma LaneIs(o: nat)
    ensures Lane(o) == o % 4
  {
  }

  lemma Transferred(m: Spaces, m': Spaces, buf: seq<Byte>, buf': seq<Byte>, s: Spot, o: nat, n: nat, writing: bool)
    requires Whole(m) && n <= |buf| && Transfers(m, m', buf, buf', s, 0, o, n, writing)
    ensures Whole(m')
    ensures if writing then
              && buf' == buf && (s !in m ==> m' == m)
              && (s in m ==> s in m' && m' == m[s := m'[s]] && Bytes(m'[s]) == Written(Bytes(m[s]), o, buf[..n]))
            else m' == m && buf'[n..] == buf[n..] && buf'[..n] == ReadFrom(Bytes(Bank(m, s)), o, n)
  {
    hide Bytes, Stored, Written, ReadFrom;
    if writing && s in m {
      StoredIs(m[s], o, buf[..n]);
      assert buf[0..0 + n] == buf[..n];
    }
  }
}
