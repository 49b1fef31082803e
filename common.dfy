/** Small building blocks shared by every component of the recorder model:
    results with errors, decimal text, the division operators of C++ and
    Python, and the string scanning the sources do with find and split. */
module Common {

  datatype Option<T> = None | Some(value: T)

  datatype Result<T, E> = Ok(value: T) | Err(error: E)

  // ---------------------------------------------------------------------
  // Division as the source languages define it
  // ---------------------------------------------------------------------

  /** C++ `/` on `int`: the quotient is truncated toward zero. */
  function TruncDiv(a: int, b: int): (q: int)
    requires b != 0
    ensures 0 <= a && 0 < b ==> q == a / b
    ensures (0 <= a) == (0 < b) ==> 0 <= q
    ensures a < 0 && 0 < b ==> q == -((-a) / b)
  {
    if a >= 0 then (if b > 0 then a / b else -(a / -b))
    else (if b > 0 then -((-a) / b) else (-a) / (-b))
  }

  /** Python `//`: the quotient is rounded toward negative infinity. */
  function FloorDiv(a: int, b: int): (q: int)
    requires b != 0
    ensures q * b <= a || b < 0
    ensures 0 < b ==> a < (q + 1) * b
  {
    if b > 0 then a / b else (-a) / (-b)
  }

  // ---------------------------------------------------------------------
  // Decimal text, as std::to_string and operator<< print integers
  // ---------------------------------------------------------------------

  predicate IsDigit(c: char) { '0' <= c <= '9' }

  predicate AllDigits(s: string) { forall i :: 0 <= i < |s| ==> IsDigit(s[i]) }

  function DigitChar(d: nat): (c: char)
    requires d < 10
    ensures IsDigit(c) && c as int - '0' as int == d
  {
    ('0' as int + d) as char
  }

  function DigitValue(c: char): (d: nat)
    requires IsDigit(c)
    ensures d < 10 && DigitChar(d) == c
  {
    c as int - '0' as int
  }

  /** The shortest decimal spelling of `n`: no sign, no leading zero. */
  function NatToString(n: nat): (s: string)
    ensures 1 <= |s| && AllDigits(s)
    ensures s[0] == '0' ==> n == 0
    ensures n < 10 <==> |s| == 1
  {
    if n < 10 then [DigitChar(n)] else NatToString(n / 10) + [DigitChar(n % 10)]
  }

  /** `std::to_string(int)`: a minus sign for negative values. */
  function IntToString(i: int): (s: string)
    ensures 1 <= |s|
    ensures (s[0] == '-') == (i < 0)
    ensures i >= 0 ==> s == NatToString(i)
  {
    if i < 0 then "-" + NatToString(-i) else NatToString(i)
  }

  /** The value of a string of decimal digits read most significant first
      (a character that is not a digit would count as 0). */
  function DigitsValue(s: string): nat
  {
    if s == [] then 0
    else 10 * DigitsValue(s[..|s| - 1]) + (if IsDigit(s[|s| - 1]) then DigitValue(s[|s| - 1]) else 0)
  }

  lemma {:induction false} NatToStringRoundTrip(n: nat)
    ensures DigitsValue(NatToString(n)) == n
  {
    if n >= 10 {
      var s := NatToString(n);
      assert s[..|s| - 1] == NatToString(n / 10);
      NatToStringRoundTrip(n / 10);
    }
  }

  lemma NatToStringInjective(m: nat, n: nat)
    requires NatToString(m) == NatToString(n)
    ensures m == n
  {
    NatToStringRoundTrip(m);
    NatToStringRoundTrip(n);
  }

  // ---------------------------------------------------------------------
  // Bounded histories
  // ---------------------------------------------------------------------

  /** The last `n` entries of `h` (all of them when there are fewer). */
  function LastN<T>(h: seq<T>, n: nat): (r: seq<T>)
    ensures |r| == if |h| < n then |h| else n
    ensures r == h[|h| - |r|..]
  {
    if |h| <= n then h else h[|h| - n..]
  }

  /** How many entries a bounded list keeps: a capacity below zero acts
      as zero. */
  function Retained(capacity: int): nat
  {
    if capacity < 0 then 0 else capacity
  }

  /** Append at the tail, then drop the front entry once when the length
      exceeds the capacity (`push_back` + `erase(begin())`, or Python's
      `append` + `pop(0)`). */
  function PushBounded<T>(xs: seq<T>, x: T, capacity: int): (r: seq<T>)
    ensures r == xs + [x] || r == (xs + [x])[1..]
    ensures 0 <= capacity && |xs| <= capacity ==> |r| <= capacity
    ensures 1 <= capacity ==> |r| >= 1 && r[|r| - 1] == x
  {
    var pushed := xs + [x];
    if |pushed| > capacity then pushed[1..] else pushed
  }

  /** Pushing onto the last `capacity` entries of a history gives the last
      `capacity` entries of the longer history: a bounded list fed this way
      always holds the most recent entries, in the order they came. */
  lemma PushKeepsLastN<T>(history: seq<T>, x: T, capacity: int)
    ensures PushBounded(LastN(history, Retained(capacity)), x, capacity) == LastN(history + [x], Retained(capacity))
  {
    var n := Retained(capacity);
    var h := history + [x];
    if |history| >= n && n > 0 {
      assert LastN(history, n) + [x] == history[|history| - n..] + [x];
      assert (history[|history| - n..] + [x])[1..] == h[|h| - n..];
    }
  }

  // ---------------------------------------------------------------------
  // Searching and splitting strings
  // ---------------------------------------------------------------------

  /** `s.find(c)`: the first index of `c`, or None for `npos`. */
  function IndexOf(s: string, c: char): (r: Option<nat>)
    ensures r.None? <==> c !in s
    ensures r.Some? ==> r.value < |s| && s[r.value] == c && c !in s[..r.value]
  {
    if s == [] then None
    else if s[0] == c then Some(0)
    else match IndexOf(s[1..], c)
      case None => None
      case Some(i) => (assert s[1..][..i] == s[1..i + 1]; Some(i + 1))
  }

  /** `sub` occurs in `s` starting at index `i`. */
  predicate OccursAt(s: string, sub: string, i: int) {
    0 <= i <= |s| - |sub| && s[i..i + |sub|] == sub
  }

  /** `sub` occurs somewhere in `s`. */
  ghost predicate Contains(s: string, sub: string) {
    exists i :: OccursAt(s, sub, i)
  }

  /** `s.find(sub)`: the first index where `sub` occurs, or None for `npos`. */
  function Find(s: string, sub: string): (r: Option<nat>)
    ensures r.Some? ==> OccursAt(s, sub, r.value)
    ensures r.None? <==> !Contains(s, sub)
    decreases |s|
  {
    if |sub| > |s| then None
    else if s[..|sub|] == sub then (assert OccursAt(s, sub, 0); Some(0))
    else match Find(s[1..], sub)
      case None =>
        assert forall i :: OccursAt(s, sub, i) ==> i > 0 && OccursAt(s[1..], sub, i - 1);
        None
      case Some(i) =>
        assert s[1..][i..i + |sub|] == s[i + 1..i + 1 + |sub|];
        assert OccursAt(s, sub, i + 1);
        Some(i + 1)
  }

  /** Python `s.split(d)`: every piece between separators, empty ones kept;
      always at least one piece. */
  function Split(s: string, d: char): (parts: seq<string>)
    ensures 1 <= |parts|
    ensures forall k :: 0 <= k < |parts| ==> d !in parts[k]
    decreases |s|
  {
    match IndexOf(s, d)
    case None => [s]
    case Some(i) => [s[..i]] + Split(s[i + 1..], d)
  }

  /** The pieces joined with `d` between neighbours (Python `d.join`). */
  function Join(parts: seq<string>, d: char): string
  {
    if parts == [] then []
    else if |parts| == 1 then parts[0]
    else parts[0] + [d] + Join(parts[1..], d)
  }

  lemma {:induction false} SplitJoin(parts: seq<string>, d: char)
    requires 1 <= |parts|
    requires forall k :: 0 <= k < |parts| ==> d !in parts[k]
    ensures Split(Join(parts, d), d) == parts
  {
    if |parts| == 1 {
      assert IndexOf(parts[0], d).None?;
    } else {
      var s := Join(parts, d);
      var p := parts[0];
      assert s == p + [d] + Join(parts[1..], d);
      assert s[|p|] == d;
      assert s[..|p|] == p;
      assert IndexOf(s, d) == Some(|p|);
      assert s[|p| + 1..] == Join(parts[1..], d);
      SplitJoin(parts[1..], d);
    }
  }

  /** The text before the first `d` (all of `s` when there is none). */
  function Before(s: string, d: char): (r: string)
    ensures d !in r
    ensures r <= s
    ensures d !in s ==> r == s
  {
    match IndexOf(s, d)
    case None => s
    case Some(i) => s[..i]
  }

  // ---------------------------------------------------------------------
  // ASCII case mapping (Python's str.lower restricted to ASCII letters)
  // ---------------------------------------------------------------------

  function LowerChar(c: char): (r: char)
    ensures 'A' <= c <= 'Z' ==> r as int == c as int + 32
    ensures !('A' <= c <= 'Z') ==> r == c
  {
    if 'A' <= c <= 'Z' then (c as int + 32) as char else c
  }

  function Lower(s: string): (r: string)
    ensures |r| == |s|
    ensures forall i :: 0 <= i < |s| ==> r[i] == LowerChar(s[i])
  {
    seq(|s|, i requires 0 <= i < |s| => LowerChar(s[i]))
  }
}
