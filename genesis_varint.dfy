/**
 * The Protocol Buffers "Base 128 Varint" and ZigZag helpers generated into
 * x/subscription/types/genesis.pb.go (encodeVarintGenesis, sovGenesis,
 * sozGenesis) and the varint-reading loop that Unmarshal and skipGenesis
 * repeat for every tag and length prefix, together with the error values
 * that file defines.
 */
module GenesisVarint {

  const Two63: int := 0x8000_0000_0000_0000
  const Two64: int := 0x1_0000_0000_0000_0000

  type byte = x: int | 0 <= x < 256
  type uint64 = x: int | 0 <= x < 0x1_0000_0000_0000_0000

  /** The failures of genesis.pb.go: its three error variables, io.ErrUnexpectedEOF
      and the ad-hoc fmt.Errorf messages of Unmarshal and skipGenesis. */
  datatype Error =
    | ErrInvalidLengthGenesis
    | ErrIntOverflowGenesis
    | ErrUnexpectedEndOfGroupGenesis
    | ErrUnexpectedEOF
    | ErrEndGroupForNonGroup
    | ErrIllegalTag(fieldNum: int, wire: uint64)
    | ErrWrongWireType(fieldNum: int, wireType: int)
    | ErrIllegalWireType(wireType: int)

  function Pow2(k: nat): (r: nat)
    ensures r >= 1
  {
    if k == 0 then 1 else 2 * Pow2(k - 1)
  }

  /** math/bits.Len64: the number of bits needed to write x (0 for 0). */
  function BitLen(x: nat): nat
  {
    if x == 0 then 0 else 1 + BitLen(x / 2)
  }

  /** x | 1 */
  function OrOne(x: nat): nat
  {
    if x % 2 == 0 then x + 1 else x
  }

  /** sovGenesis: (Len64(x|1) + 6) / 7, the byte length of the varint of x. */
  function Sov(x: uint64): int
  {
    (BitLen(OrOne(x)) + 6) / 7
  }

  /** The 64-bit ZigZag map (x << 1) ^ (int64(x) >> 63). The arithmetic shift
      yields 0 when the sign bit of x is clear and all ones when it is set, so
      the exclusive or is the identity or the complement of (x << 1) mod 2^64. */
  function ZigZag(x: uint64): uint64
  {
    var shifted := (2 * x) % Two64;
    if x < Two63 then shifted else Two64 - 1 - shifted
  }

  /** sozGenesis: the varint length of the ZigZag image. */
  function Soz(x: uint64): int
  {
    Sov(ZigZag(x))
  }

  /** The two's complement reading of a 64-bit pattern (Go's int64(x), and Go's
      64-bit `int` after shifting bits into the sign position). */
  function ToInt64(x: uint64): int
  {
    if x < Two63 then x else x - Two64
  }

  /** The decoding of ZigZag used by protobuf readers: (v >> 1) ^ -(v & 1),
      as a signed value. */
  function UnZigZag(v: uint64): int
  {
    if v % 2 == 0 then v / 2 else -(v / 2) - 1
  }

  /** The bytes encodeVarintGenesis writes for v: seven bits per byte, least
      significant group first, the 0x80 bit set on every byte but the last. */
  function VarintBytes(v: nat): seq<byte>
  {
    if v < 128 then [v] else [v % 128 + 128] + VarintBytes(v / 128)
  }

  /** The number a sequence of 7-bit groups stands for, least significant first. */
  function GroupsValue(s: seq<byte>): nat
  {
    if s == [] then 0 else s[0] % 128 + 128 * GroupsValue(s[1..])
  }

  // ---------------------------------------------------------------- sizes

  lemma {:induction false} BitLenBelow(x: nat, k: nat)
    requires x < Pow2(k)
    ensures BitLen(x) <= k
  {
    if x != 0 {
      BitLenBelow(x / 2, k - 1);
    }
  }

  lemma BitLenAbove(x: nat)
    requires x >= 1
    ensures BitLen(x) >= 1
  {
  }

  lemma BitLenOrOne(x: nat)
    requires x >= 1
    ensures BitLen(OrOne(x)) == BitLen(x)
  {
    if x % 2 == 0 {
      assert (x + 1) / 2 == x / 2;
    }
  }

  lemma BitLenShift7(x: nat)
    requires x >= 128
    ensures BitLen(x) == 7 + BitLen(x / 128)
  {
    var x1 := x / 2;
    var x2 := x1 / 2;
    var x3 := x2 / 2;
    var x4 := x3 / 2;
    var x5 := x4 / 2;
    var x6 := x5 / 2;
    var x7 := x6 / 2;
    assert x7 == x / 128;
    assert BitLen(x) == 1 + BitLen(x1);
    assert BitLen(x1) == 1 + BitLen(x2);
    assert BitLen(x2) == 1 + BitLen(x3);
    assert BitLen(x3) == 1 + BitLen(x4);
    assert BitLen(x4) == 1 + BitLen(x5);
    assert BitLen(x5) == 1 + BitLen(x6);
    assert BitLen(x6) == 1 + BitLen(x7);
  }

  lemma Pow2Of7()
    ensures Pow2(7) == 128
  {
    assert Pow2(1) == 2;
    assert Pow2(2) == 4;
    assert Pow2(3) == 8;
    assert Pow2(4) == 16;
    assert Pow2(5) == 32;
    assert Pow2(6) == 64;
  }

  lemma {:induction false} Pow2Add7(k: nat)
    ensures Pow2(k + 7) == 128 * Pow2(k)
  {
    if k == 0 {
      Pow2Of7();
    } else {
      Pow2Add7(k - 1);
    }
  }

  lemma Pow2Of64()
    ensures Pow2(64) == Two64
  {
    Pow2Of7();
    Pow2Add7(7);
    assert Pow2(14) == 0x4000;
    Pow2Add7(14);
    assert Pow2(21) == 0x20_0000;
    Pow2Add7(21);
    assert Pow2(28) == 0x1000_0000;
    Pow2Add7(28);
    assert Pow2(35) == 0x8_0000_0000;
    Pow2Add7(35);
    assert Pow2(42) == 0x400_0000_0000;
    Pow2Add7(42);
    assert Pow2(49) == 0x2_0000_0000_0000;
    Pow2Add7(49);
    assert Pow2(56) == 0x100_0000_0000_0000;
    Pow2Add7(56);
    assert Pow2(63) == 0x8000_0000_0000_0000;
  }

  /** sovGenesis(x) is exactly the number of bytes encodeVarintGenesis writes. */
  lemma {:induction false} SovIsVarintLength(x: uint64)
    ensures Sov(x) == |VarintBytes(x)|
  {
    if x < 128 {
      BitLenBelow(OrOne(x), 7);
      BitLenAbove(OrOne(x));
    } else {
      BitLenOrOne(x);
      BitLenShift7(x);
      BitLenOrOne(x / 128);
      SovIsVarintLength(x / 128);
    }
  }

  /** A varint of a 64-bit value takes one to ten bytes. */
  lemma SovBounds(x: uint64)
    ensures 1 <= Sov(x) <= 10
  {
    Pow2Of64();
    BitLenBelow(OrOne(x), 64);
    BitLenAbove(OrOne(x));
  }

  /** sovGenesis is the least byte count n >= 1 whose 7n bits hold x. */
  lemma {:induction false} SovIsLeastGroupCount(x: uint64)
    ensures x < Pow2(7 * Sov(x))
    ensures Sov(x) > 1 ==> x >= Pow2(7 * (Sov(x) - 1))
  {
    SovIsVarintLength(x);
    if x >= 128 {
      SovIsVarintLength(x / 128);
      SovIsLeastGroupCount(x / 128);
      var n := Sov(x / 128);
      Pow2Add7(7 * n);
      if n > 1 {
        Pow2Add7(7 * (n - 1));
      } else {
        Pow2Of7();
      }
    } else {
      Pow2Of7();
    }
  }

  /** The shape and meaning of a varint: continuation bits on every byte but
      the last, and 7-bit groups that read back, least significant first, as v. */
  lemma {:induction false} VarintBytesShape(v: nat)
    ensures |VarintBytes(v)| >= 1
    ensures forall k :: 0 <= k < |VarintBytes(v)| - 1 ==> VarintBytes(v)[k] >= 128
    ensures VarintBytes(v)[|VarintBytes(v)| - 1] < 128
    ensures GroupsValue(VarintBytes(v)) == v
  {
    if v >= 128 {
      VarintBytesShape(v / 128);
      assert VarintBytes(v)[1..] == VarintBytes(v / 128);
    }
  }

  /** ZigZag maps a signed value s to 2s when s >= 0 and to -2s-1 when s < 0. */
  lemma ZigZagSigned(x: uint64)
    ensures ToInt64(x) >= 0 ==> ZigZag(x) == 2 * ToInt64(x)
    ensures ToInt64(x) < 0 ==> ZigZag(x) == -2 * ToInt64(x) - 1
  {
  }

  /** ZigZag is undone by (v >> 1) ^ -(v & 1). */
  lemma ZigZagRoundTrip(x: uint64)
    ensures UnZigZag(ZigZag(x)) == ToInt64(x)
  {
  }

  /** sozGenesis also lies between one and ten bytes. */
  lemma SozBounds(x: uint64)
    ensures 1 <= Soz(x) <= 10
    ensures Soz(x) == |VarintBytes(ZigZag(x))|
  {
    SovBounds(ZigZag(x));
    SovIsVarintLength(ZigZag(x));
  }

  // ---------------------------------------------------------------- encoding

  /** encodeVarintGenesis: writes the varint of v into the sovGenesis(v) bytes
      ending just before offset and returns the index of the first of them. */
  method EncodeVarint(dAtA: array<byte>, offset: int, v: uint64) returns (base: int)
    requires Sov(v) <= offset <= dAtA.Length
    modifies dAtA
    ensures base == offset - Sov(v)
    ensures dAtA[base..offset] == VarintBytes(v)
    ensures forall k :: 0 <= k < dAtA.Length && !(base <= k < offset) ==> dAtA[k] == old(dAtA[k])
  {
    SovIsVarintLength(v);
    var off := offset - Sov(v);
    base := off;
    var w := v;
    ghost var written: seq<byte> := [];
    while w >= 128
      invariant base <= off < offset
      invariant off + |VarintBytes(w)| == offset
      invariant dAtA[base..off] == written
      invariant written + VarintBytes(w) == VarintBytes(v)
      invariant forall k :: 0 <= k < dAtA.Length && !(base <= k < offset) ==> dAtA[k] == old(dAtA[k])
    {
      VarintStep(written, w);
      dAtA[off] := w % 128 + 128;   // uint8(v&0x7f | 0x80)
      written := written + [w % 128 + 128];
      w := w / 128;                 // v >>= 7
      off := off + 1;
    }
    dAtA[off] := w;
    written := written + [w];
  }

  lemma VarintStep(written: seq<byte>, w: nat)
    requires w >= 128
    ensures (written + [w % 128 + 128]) + VarintBytes(w / 128) == written + VarintBytes(w)
  {
  }

  // ---------------------------------------------------------------- decoding

  datatype VarintResult = VarintOk(value: uint64, next: nat) | VarintErr(err: Error)

  /** One pass of the loop `for shift := uint(0); ; shift += 7` that reads a
      varint at data[i..], with acc the bits gathered so far. `acc |= (b&0x7F) << shift`
      is written as an addition modulo 2^64: the group lands on bits that acc does
      not use, and bits shifted past bit 63 are lost. */
  function ReadVarintFrom(data: seq<byte>, i: nat, shift: nat, acc: uint64): (r: VarintResult)
    ensures r.VarintOk? ==> i < r.next <= |data|
    decreases |data| - i
  {
    if shift >= 64 then VarintErr(ErrIntOverflowGenesis)
    else if i >= |data| then VarintErr(ErrUnexpectedEOF)
    else
      var b := data[i];
      var acc' := (acc + (b % 128) * Pow2(shift)) % Two64;
      if b < 128 then VarintOk(acc', i + 1)
      else ReadVarintFrom(data, i + 1, shift + 7, acc')
  }

  function ReadVarint(data: seq<byte>, i: nat): VarintResult
  {
    ReadVarintFrom(data, i, 0, 0)
  }

  /** The varint reading loop as the source writes it. */
  method DecodeVarint(dAtA: seq<byte>, start: nat) returns (r: VarintResult)
    ensures r == ReadVarint(dAtA, start)
  {
    var iNdEx := start;
    var wire: uint64 := 0;
    var shift: nat := 0;
    while true
      invariant ReadVarintFrom(dAtA, iNdEx, shift, wire) == ReadVarint(dAtA, start)
      decreases |dAtA| - iNdEx
    {
      if shift >= 64 {
        return VarintErr(ErrIntOverflowGenesis);
      }
      if iNdEx >= |dAtA| {
        return VarintErr(ErrUnexpectedEOF);
      }
      var b := dAtA[iNdEx];
      iNdEx := iNdEx + 1;
      wire := (wire + (b % 128) * Pow2(shift)) % Two64;
      if b < 128 {
        return VarintOk(wire, iNdEx);
      }
      shift := shift + 7;
    }
  }

  lemma ModAddLeft(x: int, y: int)
    ensures ((x % Two64) + y) % Two64 == (x + y) % Two64
  {
  }

  /** Reading back the bytes of VarintBytes(v), started at any shift that leaves
      room for all of them, adds v << shift to the accumulator. */
  lemma {:induction false} ReadVarintOfBytes(data: seq<byte>, i: nat, v: nat, shift: nat, acc: uint64)
    requires i + |VarintBytes(v)| <= |data|
    requires data[i..i + |VarintBytes(v)|] == VarintBytes(v)
    requires shift + 7 * (|VarintBytes(v)| - 1) < 64
    ensures ReadVarintFrom(data, i, shift, acc) == VarintOk((acc + v * Pow2(shift)) % Two64, i + |VarintBytes(v)|)
    decreases v
  {
    var vb := VarintBytes(v);
    assert data[i] == vb[0];
    if v < 128 {
      assert data[i] == v;
    } else {
      var b := v % 128 + 128;
      assert data[i] == b && b % 128 == v % 128;
      var acc' := (acc + (v % 128) * Pow2(shift)) % Two64;
      assert ReadVarintFrom(data, i, shift, acc) == ReadVarintFrom(data, i + 1, shift + 7, acc');
      var rest := VarintBytes(v / 128);
      assert |vb| == 1 + |rest|;
      assert data[i + 1..i + 1 + |rest|] == vb[1..];
      ReadVarintOfBytes(data, i + 1, v / 128, shift + 7, acc');
      AccumulateGroup(acc, v, shift);
    }
  }

  lemma AccumulateGroup(acc: int, v: nat, shift: nat)
    ensures (((acc + (v % 128) * Pow2(shift)) % Two64) + (v / 128) * Pow2(shift + 7)) % Two64
         == (acc + v * Pow2(shift)) % Two64
  {
    Pow2Add7(shift);
    ModAddLeft(acc + (v % 128) * Pow2(shift), (v / 128) * Pow2(shift + 7));
    DivModScaled(v, Pow2(shift));
  }

  lemma DivModScaled(v: nat, p: nat)
    ensures (v % 128) * p + (v / 128) * (128 * p) == v * p
  {
    assert v == (v / 128) * 128 + v % 128;
    assert v * p == ((v / 128) * 128 + v % 128) * p;
  }

  /** Varint round trip: the reading loop of Unmarshal returns v and the index
      just past the bytes encodeVarintGenesis wrote for v. */
  lemma VarintRoundTrip(data: seq<byte>, i: nat, v: uint64)
    requires i + |VarintBytes(v)| <= |data|
    requires data[i..i + |VarintBytes(v)|] == VarintBytes(v)
    ensures ReadVarint(data, i) == VarintOk(v, i + Sov(v))
  {
    SovBounds(v);
    SovIsVarintLength(v);
    ReadVarintOfBytes(data, i, v, 0, 0);
    assert Pow2(0) == 1;
    ModSmall(0 + v * 1);
  }

  lemma ModSmall(x: int)
    requires 0 <= x < Two64
    ensures x % Two64 == x
  {
  }

  /** Ten continuation bytes in a row overflow 64 bits. */
  lemma {:induction false} VarintOverflow(data: seq<byte>, i: nat, j: nat, acc: uint64)
    requires j <= 9 && i + 10 - j <= |data|
    requires forall k :: i <= k < i + 10 - j ==> data[k] >= 128
    ensures ReadVarintFrom(data, i, 7 * j, acc) == VarintErr(ErrIntOverflowGenesis)
    decreases 10 - j
  {
    if j < 9 {
      VarintOverflow(data, i + 1, j + 1, (acc + (data[i] % 128) * Pow2(7 * j)) % Two64);
    } else {
      var acc' := (acc + (data[i] % 128) * Pow2(7 * j)) % Two64;
      assert ReadVarintFrom(data, i + 1, 70, acc') == VarintErr(ErrIntOverflowGenesis);
    }
  }

  /** Input that ends inside a varint, within its first ten bytes, is truncated. */
  lemma {:induction false} VarintTruncated(data: seq<byte>, i: nat, j: nat, acc: uint64)
    requires i <= |data| && j <= 9 && |data| - i <= 9 - j
    requires forall k :: i <= k < |data| ==> data[k] >= 128
    ensures ReadVarintFrom(data, i, 7 * j, acc) == VarintErr(ErrUnexpectedEOF)
    decreases |data| - i
  {
    if i < |data| {
      VarintTruncated(data, i + 1, j + 1, (acc + (data[i] % 128) * Pow2(7 * j)) % Two64);
    }
  }
}
