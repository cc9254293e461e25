/**
 The base-10 integer conversion the loader relies on: Go's `strconv.Atoi`
 on a 64-bit target, and `strconv.Itoa` as its rendering partner.

 `Atoi` follows the library's two paths: a fast path for inputs shorter
 than 19 bytes, which cannot overflow and so does no range check, and the
 general path `ParseInt(s, 10, 64)`, which strips the sign, runs the
 checked unsigned accumulation of `ParseUint` and then range-checks the
 magnitude against the sign. Both paths are proved to agree with one
 declarative definition: an optional `+` or `-`, one or more ASCII digits,
 and a value inside the 64-bit signed range.

 The library reports either a syntax or a range error; the only caller in
 the loader tests whether there was an error at all, so both become `None`.
 */
module Strconv {

  /** The result of a conversion: `Some` value, or `None` when the library reports an error. */
  datatype Option<+T> = None | Some(value: T)

  /** Bounds of Go's `int`, fixed to the 64-bit signed range. */
  const MinInt: int := -0x8000_0000_0000_0000
  const MaxInt: int := 0x7fff_ffff_ffff_ffff

  /** Largest value of `uint64`, the accumulator of `ParseUint`. */
  const MaxUint64: nat := 0xffff_ffff_ffff_ffff

  /** `ParseUint`'s cutoff for base 10: from here on, `n * 10` overflows. */
  const Cutoff: nat := MaxUint64 / 10 + 1

  /** `ParseInt`'s cutoff for 64 bits: the magnitude of the smallest int. */
  const SignedCutoff: nat := 0x8000_0000_0000_0000

  /** Inputs shorter than this take `Atoi`'s unchecked fast path. */
  const FastPathLimit: nat := 19

  predicate InIntRange(n: int) {
    MinInt <= n <= MaxInt
  }

  // ---------------------------------------------------------------------
  // Reference definition of a decimal literal and its value
  // ---------------------------------------------------------------------

  predicate IsDigit(c: char) {
    '0' <= c <= '9'
  }

  function DigitValue(c: char): (d: nat)
    requires IsDigit(c)
    ensures d <= 9
  {
    c as int - '0' as int
  }

  predicate AllDigits(s: string) {
    forall i | 0 <= i < |s| :: IsDigit(s[i])
  }

  /** The value of a run of digits, most significant digit first. */
  function DigitsValue(s: string): nat
    requires AllDigits(s)
  {
    if |s| == 0 then 0 else 10 * DigitsValue(s[..|s| - 1]) + DigitValue(s[|s| - 1])
  }

  function Pow10(k: nat): (p: nat)
    ensures p >= 1
  {
    if k == 0 then 1 else 10 * Pow10(k - 1)
  }

  predicate IsSign(c: char) {
    c == '+' || c == '-'
  }

  /** The text after an optional leading sign. */
  function Unsigned(s: string): string {
    if |s| > 0 && IsSign(s[0]) then s[1..] else s
  }

  predicate IsNegative(s: string) {
    |s| > 0 && s[0] == '-'
  }

  /** An optional sign followed by at least one ASCII digit. */
  predicate IsDecimalLiteral(s: string) {
    |Unsigned(s)| > 0 && AllDigits(Unsigned(s))
  }

  /** The mathematical value of a decimal literal; leading zeros and `+` are allowed. */
  function LiteralValue(s: string): int
    requires IsDecimalLiteral(s)
  {
    if IsNegative(s) then -(DigitsValue(Unsigned(s)) as int) else DigitsValue(Unsigned(s))
  }

  /** Exactly the strings `Atoi` converts without error. */
  predicate Parses(s: string) {
    IsDecimalLiteral(s) && InIntRange(LiteralValue(s))
  }

  // ---------------------------------------------------------------------
  // Facts about digit strings
  // ---------------------------------------------------------------------

  /** Extending a digit string by one digit multiplies by ten and adds it. */
  lemma DigitsValueSnoc(s: string, i: nat)
    requires i < |s| && AllDigits(s[..i]) && IsDigit(s[i])
    ensures AllDigits(s[..i + 1])
    ensures DigitsValue(s[..i + 1]) == 10 * DigitsValue(s[..i]) + DigitValue(s[i])
  {
    assert s[..i + 1][..i] == s[..i];
  }

  /** A prefix of a digit string never has a larger value. */
  lemma {:induction false} DigitsValuePrefix(s: string, k: nat)
    requires AllDigits(s) && k <= |s|
    ensures AllDigits(s[..k])
    ensures DigitsValue(s[..k]) <= DigitsValue(s)
    decreases |s|
  {
    if k < |s| {
      var t := s[..|s| - 1];
      assert t[..k] == s[..k];
      DigitsValuePrefix(t, k);
    } else {
      assert s[..k] == s;
    }
  }

  /** A digit string of length k is below 10^k. */
  lemma {:induction false} DigitsValueBound(s: string)
    requires AllDigits(s)
    ensures DigitsValue(s) < Pow10(|s|)
    decreases |s|
  {
    if |s| > 0 {
      DigitsValueBound(s[..|s| - 1]);
    }
  }

  /** Pow10 grows with its exponent. */
  lemma {:induction false} Pow10Monotone(j: nat, k: nat)
    requires j <= k
    ensures Pow10(j) <= Pow10(k)
    decreases k
  {
    if j < k {
      Pow10Monotone(j, k - 1);
    }
  }

  lemma {:induction false} Pow10Add(j: nat, k: nat)
    ensures Pow10(j + k) == Pow10(j) * Pow10(k)
    decreases j
  {
    if j > 0 {
      Pow10Add(j - 1, k);
      assert Pow10(j + k) == 10 * Pow10(j - 1 + k);
    }
  }

  /** Every digit string that takes the fast path fits in an int. */
  lemma FastPathFits()
    ensures Pow10(FastPathLimit - 1) <= MaxInt
  {
    Pow10Add(9, 9);
    assert Pow10(9) == 1_000_000_000;
  }

  // ---------------------------------------------------------------------
  // The library's algorithm
  // ---------------------------------------------------------------------

  /** Atoi's fast-path loop: `n = n*10 + digit` with no overflow check, failing on a non-digit. */
  function AccumulateDigits(s: string, i: nat, n: nat): (r: Option<nat>)
    requires i <= |s| && AllDigits(s[..i]) && n == DigitsValue(s[..i])
    ensures r.Some? <==> AllDigits(s)
    ensures r.Some? ==> r.value == DigitsValue(s)
    decreases |s| - i
  {
    if i == |s| then
      assert s[..i] == s;
      Some(n)
    else if !IsDigit(s[i]) then
      None
    else
      DigitsValueSnoc(s, i);
      AccumulateDigits(s, i + 1, 10 * n + DigitValue(s[i]))
  }

  /**
   ParseUint's base-10 loop: on each digit, fail if `n` has reached the
   cutoff (so `n * 10` would overflow), otherwise form `n * 10 + d` and fail
   if that passes the largest `uint64`. In unbounded integers Go's wrap
   test `n1 < n` and its bound test `n1 > maxVal` are both `n1 > MaxUint64`.
   */
  function ParseUintFrom(s: string, i: nat, n: nat): (r: Option<nat>)
    requires i <= |s| && AllDigits(s[..i]) && n == DigitsValue(s[..i])
    requires n <= MaxUint64
    ensures r.Some? <==> AllDigits(s) && DigitsValue(s) <= MaxUint64
    ensures r.Some? ==> r.value == DigitsValue(s)
    decreases |s| - i
  {
    if i == |s| then
      assert s[..i] == s;
      Some(n)
    else if !IsDigit(s[i]) then
      None
    else
      DigitsValueSnoc(s, i);
      assert AllDigits(s) ==> DigitsValue(s[..i + 1]) <= DigitsValue(s) by {
        if AllDigits(s) {
          DigitsValuePrefix(s, i + 1);
        }
      }
      if n >= Cutoff then
        None
      else
        var n1 := 10 * n + DigitValue(s[i]);
        if n1 > MaxUint64 then None else ParseUintFrom(s, i + 1, n1)
  }

  /** `strconv.ParseUint(s, 10, 64)`: the empty string is a syntax error. */
  function ParseUint(s: string): (r: Option<nat>)
    ensures r.Some? <==> |s| > 0 && AllDigits(s) && DigitsValue(s) <= MaxUint64
    ensures r.Some? ==> r.value == DigitsValue(s)
  {
    if s == "" then None else ParseUintFrom(s, 0, 0)
  }

  /**
   `strconv.ParseInt(s, 10, 64)`: take off one leading sign, convert the rest
   unsigned, then reject a positive magnitude of 2^63 or more and a negative
   one above 2^63. (On a range error from ParseUint the library goes on
   with the largest `uint64`, which the sign check then rejects, so every
   failure of ParseUint is a failure here.)
   */
  function ParseInt(s: string): (r: Option<int>)
    ensures r.Some? <==> Parses(s)
    ensures r.Some? ==> r.value == LiteralValue(s)
  {
    if s == "" then None
    else
      var neg := s[0] == '-';
      var rest := if IsSign(s[0]) then s[1..] else s;
      match ParseUint(rest)
      case None => None
      case Some(un) =>
        if !neg && un >= SignedCutoff then None
        else if neg && un > SignedCutoff then None
        else Some(if neg then -(un as int) else un)
  }

  /** `strconv.Atoi` on a 64-bit target. */
  function Atoi(s: string): (r: Option<int>)
    ensures r.Some? <==> Parses(s)
    ensures r.Some? ==> r.value == LiteralValue(s)
  {
    if 0 < |s| < FastPathLimit then
      var rest := if IsSign(s[0]) then s[1..] else s;
      if |rest| < 1 then None
      else
        match AccumulateDigits(rest, 0, 0)
        case None => None
        case Some(n) =>
          DigitsValueBound(rest);
          Pow10Monotone(|rest|, FastPathLimit - 1);
          FastPathFits();
          Some(if s[0] == '-' then -(n as int) else n)
    else
      ParseInt(s)
  }

  // ---------------------------------------------------------------------
  // Rendering, the partner of Atoi
  // ---------------------------------------------------------------------

  function DigitChar(d: nat): (c: char)
    requires d <= 9
    ensures IsDigit(c) && DigitValue(c) == d
  {
    ('0' as int + d) as char
  }

  /** The shortest decimal digits of a natural number. */
  function FormatDigits(n: nat): (s: string)
    ensures |s| > 0 && AllDigits(s)
    ensures |s| > 1 ==> s[0] != '0'
    decreases n
  {
    if n < 10 then [DigitChar(n)] else FormatDigits(n / 10) + [DigitChar(n % 10)]
  }

  /** `strconv.Itoa`: a `-` for negative numbers, then the shortest digits. */
  function Itoa(n: int): (s: string)
    ensures n >= 0 ==> |s| > 0 && IsDigit(s[0])
    ensures n < 0 ==> |s| > 1 && s[0] == '-'
  {
    if n < 0 then "-" + FormatDigits(-n) else FormatDigits(n)
  }

  lemma {:induction false} FormatDigitsValue(n: nat)
    ensures DigitsValue(FormatDigits(n)) == n
    decreases n
  {
    if n >= 10 {
      var s := FormatDigits(n);
      assert s[..|s| - 1] == FormatDigits(n / 10);
      FormatDigitsValue(n / 10);
    }
  }

  /** Every rendering is a decimal literal denoting the number rendered. */
  lemma ItoaIsLiteral(n: int)
    ensures IsDecimalLiteral(Itoa(n))
    ensures LiteralValue(Itoa(n)) == n
  {
    var s := Itoa(n);
    if n < 0 {
      assert Unsigned(s) == FormatDigits(-n);
      FormatDigitsValue(-n);
    } else {
      assert Unsigned(s) == FormatDigits(n);
      FormatDigitsValue(n);
    }
  }

  /** Round trip: Atoi reads back every 64-bit int that Itoa renders. */
  lemma AtoiItoa(n: int)
    requires InIntRange(n)
    ensures Atoi(Itoa(n)) == Some(n)
  {
    ItoaIsLiteral(n);
  }
}
