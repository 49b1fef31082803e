/** `currentTimestamp` (src/utils.cpp): the CAN clock fields printed with
    `snprintf(buf, 32, "%04d%02d%02d_%02d%02d%02d", ...)`.  `%0Nd` pads with
    zeros to at least N characters, the minus sign of a negative value
    counting toward N, and never cuts a longer number; `snprintf` then keeps
    at most 31 characters of the result. */
module Timestamp {
  import opened Common

  const BufferSize: nat := 32

  function Pow10(k: nat): (p: nat)
    ensures p >= 1
  {
    if k == 0 then 1 else 10 * Pow10(k - 1)
  }

  function Zeros(k: nat): (z: string)
    ensures |z| == k && forall i :: 0 <= i < k ==> z[i] == '0'
  {
    seq(k, _ => '0')
  }

  function PadLeft(digits: string, width: nat): (r: string)
    ensures |r| == if |digits| >= width then |digits| else width
  {
    if |digits| >= width then digits else Zeros(width - |digits|) + digits
  }

  /** `%0<width>d` of `v`. */
  function ZeroPadded(v: int, width: nat): string
  {
    if v < 0 then "-" + PadLeft(NatToString(-v), if width >= 1 then width - 1 else 0)
    else PadLeft(NatToString(v), width)
  }

  /** The timestamp text, `YYYYMMDD_HHMMSS` for in-range fields. */
  function CurrentTimestamp(year: int, month: int, day: int, hour: int, minute: int, second: int): (r: string)
    ensures |r| < BufferSize
  {
    var full := ZeroPadded(year, 4) + ZeroPadded(month, 2) + ZeroPadded(day, 2) + "_"
                + ZeroPadded(hour, 2) + ZeroPadded(minute, 2) + ZeroPadded(second, 2);
    if |full| < BufferSize then full else full[..BufferSize - 1]
  }

  // ---------------------------------------------------------------------
  // Properties
  // ---------------------------------------------------------------------

  lemma {:induction false} NatToStringLength(v: nat, width: nat)
    requires 1 <= width && v < Pow10(width)
    ensures |NatToString(v)| <= width
  {
    if v >= 10 {
      NatToStringLength(v / 10, width - 1);
    }
  }

  lemma ShiftDigit(x: int, p: int, y: int, d: int)
    ensures 10 * (x * p + y) + d == x * (10 * p) + (10 * y + d)
  {
  }

  lemma {:induction false} DigitsValueAppend(a: string, b: string)
    ensures DigitsValue(a + b) == DigitsValue(a) * Pow10(|b|) + DigitsValue(b)
  {
    if b == [] {
      assert a + b == a;
    } else {
      var init, c := b[..|b| - 1], b[|b| - 1];
      var d := if IsDigit(c) then DigitValue(c) else 0;
      assert DigitsValue(a + b) == 10 * DigitsValue(a + init) + d by {
        assert (a + b)[..|a + b| - 1] == a + init;
        assert (a + b)[|a + b| - 1] == c;
      }
      DigitsValueAppend(a, init);
      var x, p, y := DigitsValue(a), Pow10(|init|), DigitsValue(init);
      assert DigitsValue(b) == 10 * y + d by {
        assert b[..|b| - 1] == init;
      }
      assert Pow10(|b|) == 10 * p;
      ShiftDigit(x, p, y, d);
    }
  }

  lemma {:induction false} ZerosValue(k: nat)
    ensures AllDigits(Zeros(k)) && DigitsValue(Zeros(k)) == 0
  {
    if k > 0 {
      assert Zeros(k)[..k - 1] == Zeros(k - 1);
      ZerosValue(k - 1);
    }
  }

  /** A field in range prints as exactly `width` digits that read back as it. */
  lemma PaddedField(v: int, width: nat)
    requires 1 <= width && 0 <= v < Pow10(width)
    ensures |ZeroPadded(v, width)| == width
    ensures AllDigits(ZeroPadded(v, width))
    ensures DigitsValue(ZeroPadded(v, width)) == v
  {
    var digits := NatToString(v);
    assert ZeroPadded(v, width) == PadLeft(digits, width);
    NatToStringLength(v, width);
    NatToStringRoundTrip(v);
    PadLeftKeepsValue(digits, width);
  }

  /** Leading zeros change neither the digit-ness nor the value. */
  lemma PadLeftKeepsValue(digits: string, width: nat)
    requires AllDigits(digits)
    ensures AllDigits(PadLeft(digits, width)) && DigitsValue(PadLeft(digits, width)) == DigitsValue(digits)
  {
    if |digits| < width {
      var zeros := Zeros(width - |digits|);
      ZerosValue(width - |digits|);
      DigitsValueAppend(zeros, digits);
      assert forall i :: |zeros| <= i < |zeros + digits| ==> (zeros + digits)[i] == digits[i - |zeros|];
    }
  }

  /** A field in range fills its slot of the timestamp exactly. */
  predicate FieldReadsBack(slot: string, v: int, width: nat)
  {
    |slot| == width && AllDigits(slot) && DigitsValue(slot) == v
  }

  lemma Layout(y: string, mo: string, d: string, h: string, mi: string, s: string)
    requires |y| == 4 && |mo| == 2 && |d| == 2 && |h| == 2 && |mi| == 2 && |s| == 2
    ensures var r := y + mo + d + "_" + h + mi + s;
      |r| == 15 && r[8] == '_' &&
      r[0..4] == y && r[4..6] == mo && r[6..8] == d &&
      r[9..11] == h && r[11..13] == mi && r[13..15] == s
  {
  }

  /** With year in 0..9999 and the other fields in 0..99 the timestamp has
      15 characters, `_` at index 8 and digit groups elsewhere that read
      back as the fields. */
  lemma TimestampRoundTrip(year: int, month: int, day: int, hour: int, minute: int, second: int)
    requires 0 <= year <= 9999
    requires 0 <= month <= 99 && 0 <= day <= 99
    requires 0 <= hour <= 99 && 0 <= minute <= 99 && 0 <= second <= 99
    ensures var r := CurrentTimestamp(year, month, day, hour, minute, second);
      && |r| == 15 && r[8] == '_'
      && FieldReadsBack(r[0..4], year, 4) && FieldReadsBack(r[4..6], month, 2)
      && FieldReadsBack(r[6..8], day, 2) && FieldReadsBack(r[9..11], hour, 2)
      && FieldReadsBack(r[11..13], minute, 2) && FieldReadsBack(r[13..15], second, 2)
  {
    assert Pow10(2) == 100 && Pow10(4) == 10000;
    var y, mo, d := ZeroPadded(year, 4), ZeroPadded(month, 2), ZeroPadded(day, 2);
    var h, mi, s := ZeroPadded(hour, 2), ZeroPadded(minute, 2), ZeroPadded(second, 2);
    PaddedField(year, 4);
    PaddedField(month, 2);
    PaddedField(day, 2);
    PaddedField(hour, 2);
    PaddedField(minute, 2);
    PaddedField(second, 2);
    Layout(y, mo, d, h, mi, s);
  }

  /** A negative field keeps its sign inside the padded width. */
  lemma NegativeFieldExample()
    ensures ZeroPadded(-5, 4) == "-005"
  {
    assert NatToString(5) == "5";
    assert Zeros(2) == "00";
  }
}
