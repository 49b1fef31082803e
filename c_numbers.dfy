/** `std::stoi` as the C++ standard library defines it on top of `strtol`:
    leading white space is skipped, an optional sign is read, then the
    longest run of digits in the chosen base; text after the digits is
    ignored.  No digits at all raises `invalid_argument`; a value outside
    the 32-bit `int` range raises `out_of_range`. */
module CNumbers {
  import opened Common

  const IntMin: int := -0x8000_0000
  const IntMax: int := 0x7FFF_FFFF

  /** The `base` argument: 10 (the default) or 0 (chosen from the prefix). */
  datatype Base = Decimal | Auto

  datatype NumError = InvalidArgument | OutOfRange

  /** `isspace` in the C locale. */
  predicate IsSpace(c: char) {
    c == ' ' || c == '\t' || c == '\n' || c == '\r' || c as int == 11 || c as int == 12
  }

  function SkipSpace(s: string): (r: string)
    ensures |r| <= |s| && r == s[|s| - |r|..]
    ensures r == [] || !IsSpace(r[0])
  {
    if s != [] && IsSpace(s[0]) then SkipSpace(s[1..]) else s
  }

  /** The value of `c` as a digit of `radix` (2..36), if it is one. */
  function RadixDigit(c: char, radix: nat): (r: Option<nat>)
    ensures r.Some? ==> r.value < radix
    ensures radix == 10 ==> (r.Some? <==> IsDigit(c))
    ensures radix == 10 && IsDigit(c) ==> r == Some(DigitValue(c))
  {
    var v :=
      if '0' <= c <= '9' then c as int - '0' as int
      else if 'a' <= c <= 'z' then c as int - 'a' as int + 10
      else if 'A' <= c <= 'Z' then c as int - 'A' as int + 10
      else 36;
    if v < radix then Some(v) else None
  }

  predicate AllRadixDigits(s: string, radix: nat) {
    forall i :: 0 <= i < |s| ==> RadixDigit(s[i], radix).Some?
  }

  /** How many leading characters of `s` are digits of `radix`. */
  function DigitRun(s: string, radix: nat): (n: nat)
    ensures n <= |s|
    ensures AllRadixDigits(s[..n], radix)
    ensures n < |s| ==> RadixDigit(s[n], radix).None?
  {
    if s != [] && RadixDigit(s[0], radix).Some? then
      var n := 1 + DigitRun(s[1..], radix);
      assert forall i :: 1 <= i < n ==> s[..n][i] == s[1..][..n - 1][i - 1];
      n
    else 0
  }

  /** The value of a run of digits of `radix`, most significant first. */
  function RadixValue(s: string, radix: nat): nat
    requires AllRadixDigits(s, radix)
  {
    if s == [] then 0
    else radix * RadixValue(s[..|s| - 1], radix) + RadixDigit(s[|s| - 1], radix).value
  }

  /** The radix `strtol` settles on, and the text its digits are read from
      (after the sign; for a `0x` prefix, after the prefix). */
  function ChooseRadix(u: string, base: Base): (r: (nat, string))
    ensures r.0 in {8, 10, 16}
    ensures base == Decimal ==> r == (10, u)
  {
    match base
    case Decimal => (10, u)
    case Auto =>
      if |u| >= 3 && u[0] == '0' && (u[1] == 'x' || u[1] == 'X') && RadixDigit(u[2], 16).Some?
      then (16, u[2..])
      else if |u| >= 1 && u[0] == '0' then (8, u)
      else (10, u)
  }

  /** The sign `strtol` reads (true for `-`) and the text after it. */
  function Sign(t: string): (bool, string)
  {
    if |t| > 0 && (t[0] == '+' || t[0] == '-') then (t[0] == '-', t[1..]) else (false, t)
  }

  /** The digits of `body` in `radix`, signed and range-checked for `int`. */
  function Convert(neg: bool, body: string, radix: nat): (r: Result<int, NumError>)
    ensures r.Ok? ==> IntMin <= r.value <= IntMax
    ensures r == Err(InvalidArgument) <==> DigitRun(body, radix) == 0
    ensures r.Ok? && r.value < 0 ==> neg
    ensures r.Ok? && r.value > 0 ==> !neg
  {
    var n := DigitRun(body, radix);
    if n == 0 then Err(InvalidArgument)
    else
      var magnitude: int := RadixValue(body[..n], radix);
      var v := if neg then -magnitude else magnitude;
      if v < IntMin || v > IntMax then Err(OutOfRange) else Ok(v)
  }

  /** `std::stoi(s, nullptr, base)`. */
  function Stoi(s: string, base: Base): (r: Result<int, NumError>)
    ensures r.Ok? ==> IntMin <= r.value <= IntMax
    ensures var digits := ChooseRadix(Sign(SkipSpace(s)).1, base);
      r == Err(InvalidArgument) <==> DigitRun(digits.1, digits.0) == 0
    ensures r.Ok? && r.value < 0 ==> Sign(SkipSpace(s)).0
    ensures r.Ok? && r.value > 0 ==> !Sign(SkipSpace(s)).0
  {
    var signed := Sign(SkipSpace(s));
    var digits := ChooseRadix(signed.1, base);
    Convert(signed.0, digits.1, digits.0)
  }

  lemma {:induction false} RadixValueDecimal(s: string)
    requires AllDigits(s)
    ensures AllRadixDigits(s, 10) && RadixValue(s, 10) == DigitsValue(s)
  {
    if s != [] {
      RadixValueDecimal(s[..|s| - 1]);
    }
  }

  /** A decimal spelling is read back as the same number, in base 10 and in
      base 0 alike (a lone "0" is read as octal, which is still 0). */
  lemma DecimalDigitRun(s: string)
    requires AllDigits(s)
    ensures DigitRun(s, 10) == |s|
  {
  }

  lemma ConvertDecimal(s: string)
    requires 1 <= |s| && AllDigits(s) && DigitsValue(s) <= IntMax
    ensures Convert(false, s, 10) == Ok(DigitsValue(s))
  {
    DecimalDigitRun(s);
    assert s[..|s|] == s;
    RadixValueDecimal(s);
  }

  lemma StoiOfDecimal(n: nat, base: Base)
    requires n <= IntMax
    ensures Stoi(NatToString(n), base) == Ok(n)
  {
    var s := NatToString(n);
    if n == 0 {
      StoiOfZero(s, base);
    } else {
      assert IsDigit(s[0]);
      StoiUnsigned(s, base);
      assert ChooseRadix(s, base) == (10, s);
      NatToStringRoundTrip(n);
      ConvertDecimal(s);
    }
  }

  /** Text starting with neither blank nor sign goes straight to the radix choice. */
  lemma StoiUnsigned(s: string, base: Base)
    requires s != [] && !IsSpace(s[0]) && s[0] != '+' && s[0] != '-'
    ensures Stoi(s, base) == Convert(false, ChooseRadix(s, base).1, ChooseRadix(s, base).0)
  {
    assert SkipSpace(s) == s;
    assert Sign(s) == (false, s);
  }

  lemma StoiOfZero(s: string, base: Base)
    requires |s| == 1 && s[0] == '0'
    ensures Stoi(s, base) == Ok(0)
  {
    var radix := if base == Auto then 8 else 10;
    assert ChooseRadix(s, base) == (radix, s);
    calc {
      Stoi(s, base);
      { StoiUnsigned(s, base); }
      Convert(false, s, radix);
      { ConvertZero(s, radix); }
      Ok(0);
    }
  }

  /** A `0` followed by no digit of `radix` reads as 0. */
  lemma ConvertZero(s: string, radix: nat)
    requires s != [] && s[0] == '0' && 8 <= radix
    requires |s| == 1 || RadixDigit(s[1], radix).None?
    ensures Convert(false, s, radix) == Ok(0)
  {
    assert RadixDigit(s[0], radix) == Some(0);
    assert DigitRun(s, radix) == 1 by {
      assert DigitRun(s[1..], radix) == 0;
    }
    assert RadixValue(s[..1], radix) == 0 by {
      assert s[..1][..0] == [];
    }
  }

  /** A run of digits with nothing after it reads as its value. */
  lemma ConvertDigits(body: string, radix: nat)
    requires body != [] && AllRadixDigits(body, radix) && RadixValue(body, radix) <= IntMax
    ensures Convert(false, body, radix) == Ok(RadixValue(body, radix))
  {
    AllDigitsRun(body, radix);
    assert body[..|body|] == body;
  }

  lemma {:induction false} AllDigitsRun(body: string, radix: nat)
    requires AllRadixDigits(body, radix)
    ensures DigitRun(body, radix) == |body|
  {
    if body != [] {
      AllDigitsRun(body[1..], radix);
    }
  }

  /** Leading text that is not a number is an error, not a skipped item. */
  lemma StoiRejectsNonNumeric(s: string, base: Base)
    requires s != [] && !IsSpace(s[0]) && !IsDigit(s[0]) && s[0] != '+' && s[0] != '-'
    ensures Stoi(s, base) == Err(InvalidArgument)
  {
    assert SkipSpace(s) == s;
    var (radix, body) := ChooseRadix(s, base);
    assert body == s;
    assert radix == 10;
    assert RadixDigit(s[0], radix).None?;
  }

  /** Base 0 reads a `0x` prefix as hexadecimal ... */
  lemma StoiHexExample()
    ensures Stoi("0x1A1", Auto) == Ok(417)
  {
    var s := "0x1A1";
    StoiUnsigned(s, Auto);
    assert ChooseRadix(s, Auto) == (16, s[2..]) by {
      assert |s| >= 3 && s[0] == '0' && s[1] == 'x' && RadixDigit(s[2], 16).Some?;
    }
    HexDigits(s[2..]);
    ConvertDigits(s[2..], 16);
  }

  lemma HexDigits(body: string)
    requires |body| == 3 && body[0] == '1' && body[1] == 'A' && body[2] == '1'
    ensures AllRadixDigits(body, 16) && RadixValue(body, 16) == 417
  {
    assert RadixDigit(body[1], 16) == Some(10);
    var one := body[..2][..1];
    assert |one| == 1 && one[0] == '1' && one[..0] == [];
    assert RadixValue(one, 16) == 1;
    assert RadixValue(body[..2], 16) == 26;
    assert body[..3] == body;
  }

  /** ... and a leading `0` as octal, while base 10 stops at the `x`. */
  lemma StoiOctalExample()
    ensures Stoi("017", Auto) == Ok(15)
  {
    var s := "017";
    StoiUnsigned(s, Auto);
    assert ChooseRadix(s, Auto) == (8, s);
    assert AllRadixDigits(s, 8) && RadixValue(s, 8) == 15 by {
      assert RadixDigit(s[2], 8) == Some(7) && RadixDigit(s[1], 8) == Some(1);
      assert s[..2] == "01" && s[..2][..1] == "0" && s[..2][..1][..0] == "";
      assert RadixValue(s[..2][..1], 8) == 0;
      assert RadixValue(s[..2], 8) == 1;
    }
    ConvertDigits(s, 8);
  }

  lemma StoiDecimalStopsAtLetter()
    ensures Stoi("0x1A1", Decimal) == Ok(0)
  {
    var s := "0x1A1";
    StoiUnsigned(s, Decimal);
    ConvertZero(s, 10);
  }
}
