/** `extractSignal` (src/utils.cpp): a bit field of an 8-byte CAN payload.
    The bytes from `startBit / 8` on are gathered into a 64-bit value,
    least significant byte first (Intel order) or most significant byte
    first (Motorola order); the value is shifted right by `startBit % 8` and
    masked to `length` bits.  The bit operations are written arithmetically:
    `x << k` as `x * 2^k`, `x >> k` as `x / 2^k`, `x & (2^n - 1)` as
    `x % 2^n`, and `|=` of a byte into bits that are still zero as `+`
    (the loop invariant shows those bits are zero). */
module CanSignal {

  newtype byte = x: int | 0 <= x < 256

  function Pow2(k: nat): (p: nat)
    ensures p >= 1
  {
    if k == 0 then 1 else 2 * Pow2(k - 1)
  }

  /** How many bytes the loop reads: `(length + startBit % 8 + 7) / 8`. */
  function ByteCount(startBit: nat, length: nat): nat
  {
    (length + startBit % 8 + 7) / 8
  }

  /** A CAN payload holds 8 bytes. */
  const PayloadBytes: nat := 8

  /** What the source leaves to its callers: an 8-byte payload and a field
      of at most 63 bits whose bytes lie inside it.  A field of 0 bits is
      allowed and reads as 0 (the mask `(1 << 0) - 1` is 0); from 64 bits
      on the mask's shift is undefined. */
  predicate ValidField(data: seq<byte>, startBit: nat, length: nat)
  {
    |data| == PayloadBytes && length <= 63 && startBit / 8 + ByteCount(startBit, length) <= |data|
  }

  /** Bytes read least significant first. */
  function LittleEndian(bytes: seq<byte>): nat
  {
    if bytes == [] then 0
    else LittleEndian(bytes[..|bytes| - 1]) + bytes[|bytes| - 1] as nat * Pow2(8 * (|bytes| - 1))
  }

  /** Bytes read most significant first. */
  function BigEndian(bytes: seq<byte>): nat
  {
    if bytes == [] then 0
    else BigEndian(bytes[..|bytes| - 1]) * 256 + bytes[|bytes| - 1] as nat
  }

  /** The bytes a field occupies. */
  function FieldBytes(data: seq<byte>, startBit: nat, length: nat): seq<byte>
    requires ValidField(data, startBit, length)
  {
    data[startBit / 8 .. startBit / 8 + ByteCount(startBit, length)]
  }

  /** The raw signal value (factor 1, offset 0). */
  function Signal(data: seq<byte>, startBit: nat, length: nat, littleEndian: bool): nat
    requires ValidField(data, startBit, length)
  {
    var bytes := FieldBytes(data, startBit, length);
    var raw := if littleEndian then LittleEndian(bytes) else BigEndian(bytes);
    (raw / Pow2(startBit % 8)) % Pow2(length)
  }

  /** The accumulation loop, then the shift and the mask. */
  method ExtractSignal(data: seq<byte>, startBit: nat, length: nat, littleEndian: bool) returns (value: nat)
    requires ValidField(data, startBit, length)
    ensures value == Signal(data, startBit, length, littleEndian)
    ensures value < Pow2(length)
  {
    var raw: int := 0;
    var startByte := startBit / 8;
    var startBitInByte := startBit % 8;
    var n := ByteCount(startBit, length);
    ghost var bytes := FieldBytes(data, startBit, length);
    var i := 0;
    while i < n
      invariant 0 <= i <= n
      invariant raw == (if littleEndian then LittleEndian(bytes[..i]) else BigEndian(bytes[..i]))
    {
      var b := data[startByte + i];
      assert b == bytes[i];
      if littleEndian {
        LittleEndianStep(bytes, i);
        raw := raw + b as nat * Pow2(i * 8);
      } else {
        BigEndianStep(bytes, i);
        raw := raw * 256 + b as nat;
      }
      i := i + 1;
    }
    assert bytes[..i] == bytes;
    raw := raw / Pow2(startBitInByte);
    value := raw % Pow2(length);
  }

  // ---------------------------------------------------------------------
  // Properties
  // ---------------------------------------------------------------------

  lemma {:induction false} Pow2Add(a: nat, b: nat)
    ensures Pow2(a + b) == Pow2(a) * Pow2(b)
  {
    if b > 0 {
      Pow2Add(a, b - 1);
    }
  }

  lemma {:induction false} Pow2Monotone(a: nat, b: nat)
    requires a <= b
    ensures Pow2(a) <= Pow2(b)
  {
    if a < b {
      Pow2Monotone(a, b - 1);
    }
  }

  /** Adding a byte shifted above every set bit keeps the value below the
      next power of 256, so `|=` and `+` agree there. */
  lemma StepBound(raw: nat, b: nat, p: nat)
    requires raw < p && b < 256
    ensures raw + b * p < p * 256
  {
  }

  lemma LittleEndianStep(bytes: seq<byte>, i: nat)
    requires i < |bytes|
    ensures LittleEndian(bytes[..i + 1]) == LittleEndian(bytes[..i]) + bytes[i] as nat * Pow2(8 * i)
  {
    assert bytes[..i + 1][..i] == bytes[..i];
  }

  lemma BigEndianStep(bytes: seq<byte>, i: nat)
    requires i < |bytes|
    ensures BigEndian(bytes[..i + 1]) == BigEndian(bytes[..i]) * 256 + bytes[i] as nat
  {
    assert bytes[..i + 1][..i] == bytes[..i];
  }

  /** The gathered bytes fit the 64-bit accumulator: at most 8 bytes are read. */
  lemma ByteCountFits(data: seq<byte>, startBit: nat, length: nat)
    requires ValidField(data, startBit, length)
    ensures ByteCount(startBit, length) <= 8
  {
  }

  lemma {:induction false} LittleEndianBound(bytes: seq<byte>)
    ensures LittleEndian(bytes) < Pow2(8 * |bytes|)
  {
    if bytes != [] {
      var n := |bytes|;
      LittleEndianBound(bytes[..n - 1]);
      StepBound(LittleEndian(bytes[..n - 1]), bytes[n - 1] as nat, Pow2(8 * (n - 1)));
      Pow2Add(8 * (n - 1), 8);
    }
  }

  lemma {:induction false} BigEndianBound(bytes: seq<byte>)
    ensures BigEndian(bytes) < Pow2(8 * |bytes|)
  {
    if bytes != [] {
      var n := |bytes|;
      BigEndianBound(bytes[..n - 1]);
      Pow2Add(8 * (n - 1), 8);
    }
  }

  /** The accumulated value never exceeds the 64 bits of `uint64_t`, so the
      shifts in the loop lose nothing. */
  lemma RawFitsUint64(data: seq<byte>, startBit: nat, length: nat, littleEndian: bool)
    requires ValidField(data, startBit, length)
    ensures var bytes := FieldBytes(data, startBit, length);
            (if littleEndian then LittleEndian(bytes) else BigEndian(bytes)) < Pow2(64)
  {
    var bytes := FieldBytes(data, startBit, length);
    assert |bytes| <= 8;
    LittleEndianBound(bytes);
    BigEndianBound(bytes);
    Pow2Monotone(8 * |bytes|, 64);
  }

  /** Bytes outside the field do not influence the result. */
  lemma OnlyFieldBytesMatter(data: seq<byte>, other: seq<byte>, startBit: nat, length: nat, littleEndian: bool)
    requires ValidField(data, startBit, length) && |other| == |data|
    requires forall k :: startBit / 8 <= k < startBit / 8 + ByteCount(startBit, length) ==> other[k] == data[k]
    ensures Signal(other, startBit, length, littleEndian) == Signal(data, startBit, length, littleEndian)
  {
    assert FieldBytes(other, startBit, length) == FieldBytes(data, startBit, length);
  }

  /** A byte-aligned 16-bit field at byte `s`. */
  lemma Aligned16(data: seq<byte>, s: nat)
    requires |data| == PayloadBytes && s + 2 <= |data|
    ensures ValidField(data, 8 * s, 16)
    ensures Signal(data, 8 * s, 16, true) == data[s] as int + 256 * data[s + 1] as int
    ensures Signal(data, 8 * s, 16, false) == 256 * data[s] as int + data[s + 1] as int
  {
    assert (8 * s) / 8 == s && (8 * s) % 8 == 0;
    assert FieldBytes(data, 8 * s, 16) == [data[s], data[s + 1]];
    TwoBytes(data[s], data[s + 1]);
    Below16Bits(data, 8 * s, true);
    Below16Bits(data, 8 * s, false);
  }

  lemma TwoBytes(lo: byte, hi: byte)
    ensures LittleEndian([lo, hi]) == lo as int + 256 * hi as int
    ensures BigEndian([lo, hi]) == 256 * lo as int + hi as int
  {
    var bytes := [lo, hi];
    assert Pow2(8) == 256;
    assert bytes[..1] == [lo] && [lo][..0] == [];
    assert LittleEndian([lo]) == lo as int;
    assert BigEndian([lo]) == lo as int;
  }

  /** A byte-aligned two-byte field is its raw value unchanged. */
  lemma Below16Bits(data: seq<byte>, startBit: nat, littleEndian: bool)
    requires ValidField(data, startBit, 16) && startBit % 8 == 0
    ensures var bytes := FieldBytes(data, startBit, 16);
      Signal(data, startBit, 16, littleEndian) == if littleEndian then LittleEndian(bytes) else BigEndian(bytes)
  {
    var bytes := FieldBytes(data, startBit, 16);
    assert |bytes| == 2;
    LittleEndianBound(bytes);
    BigEndianBound(bytes);
    assert Pow2(16) == 65536 by { Pow2Add(8, 8); assert Pow2(8) == 256; }
  }
}
