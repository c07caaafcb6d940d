/**
  Decimal text and 64-bit integers: Go's `strconv.Atoi`, the `%d` verb of `fmt`,
  and the wrap-around of Go's 64-bit `int`.
 */
module Decimal {

  const MinInt64: int := -0x8000_0000_0000_0000
  const MaxInt64: int := 0x7FFF_FFFF_FFFF_FFFF
  const MaxUint64: int := 0xFFFF_FFFF_FFFF_FFFF

  predicate IsInt64(n: int) {
    MinInt64 <= n <= MaxInt64
  }

  /** `a` and `b` agree modulo 2^64: the same 64-bit pattern. */
  predicate Congruent64(a: int, b: int) {
    (a - b) % 0x1_0000_0000_0000_0000 == 0
  }

  /** Two's-complement wrap-around of a mathematical integer into Go's 64-bit `int`. */
  function Wrap64(n: int): (r: int)
    ensures IsInt64(r)
    ensures Congruent64(r, n)
    ensures IsInt64(n) ==> r == n
  {
    (n - MinInt64) % 0x1_0000_0000_0000_0000 + MinInt64
  }

  /** Saturation into the 64-bit range, as `strconv.ParseInt` reports an out-of-range value. */
  function Clamp64(n: int): (r: int)
    ensures IsInt64(r)
    ensures IsInt64(n) ==> r == n
    ensures n > MaxInt64 ==> r == MaxInt64
    ensures n < MinInt64 ==> r == MinInt64
  {
    if n > MaxInt64 then MaxInt64 else if n < MinInt64 then MinInt64 else n
  }

  predicate IsDigit(c: char) {
    '0' <= c <= '9'
  }

  predicate AllDigits(s: string) {
    forall i :: 0 <= i < |s| ==> IsDigit(s[i])
  }

  function DigitChar(d: nat): char
    requires d < 10
  {
    ['0', '1', '2', '3', '4', '5', '6', '7', '8', '9'][d]
  }

  function DigitValue(c: char): nat
    requires IsDigit(c)
  {
    (c as int - '0' as int) as nat
  }

  /** The number a run of decimal digits denotes (most significant digit first). */
  function DigitsValue(s: string): nat
    requires AllDigits(s)
  {
    if s == [] then 0 else 10 * DigitsValue(s[..|s| - 1]) + DigitValue(s[|s| - 1])
  }

  /** The longest prefix of `s` made of decimal digits. */
  function DigitRun(s: string): (r: string)
    ensures AllDigits(r)
    ensures |r| <= |s| && r == s[..|r|]
    ensures |r| < |s| ==> !IsDigit(s[|r|])
  {
    if s != [] && IsDigit(s[0]) then
      var rest := DigitRun(s[1..]);
      assert [s[0]] + rest == s[..1 + |rest|];
      [s[0]] + rest
    else []
  }

  /** Decimal digits of a natural number, without leading zeros (`"0"` for zero). */
  function NatDigits(n: nat): (r: string)
    ensures |r| >= 1 && AllDigits(r)
    ensures DigitsValue(r) == n
    ensures n > 0 ==> r[0] != '0'
    decreases n
  {
    if n < 10 then [DigitChar(n)]
    else
      var r := NatDigits(n / 10) + [DigitChar(n % 10)];
      assert r[..|r| - 1] == NatDigits(n / 10);
      r
  }

  /** The `%d` verb of `fmt` (and `strconv.Itoa`): optional minus sign, then the digits. */
  function Itoa(n: int): (r: string)
    ensures |r| >= 1
    ensures n < 0 <==> r[0] == '-'
    ensures n >= 0 ==> r == NatDigits(n)
    ensures n < 0 ==> r[1..] == NatDigits(-n)
  {
    if n < 0 then "-" + NatDigits(-n) else NatDigits(n)
  }

  /** The text after its optional leading sign. */
  function Unsigned(s: string): (u: string)
    ensures |s| > 0 && (s[0] == '-' || s[0] == '+') ==> u == s[1..]
    ensures !(|s| > 0 && (s[0] == '-' || s[0] == '+')) ==> u == s
  {
    if |s| > 0 && (s[0] == '-' || s[0] == '+') then s[1..] else s
  }

  /** The value a sign and a magnitude denote: negative exactly when the text starts with a minus sign. */
  function Signed(s: string, magnitude: nat): int {
    if |s| > 0 && s[0] == '-' then -(magnitude as int) else magnitude
  }

  /**
    `strconv.Atoi` on a 64-bit platform, keeping only the integer its callers read
    when they discard the error: an optional sign and a non-empty digit run give their
    value saturated to 64 bits; anything else gives 0, except that a digit run already
    past the unsigned 64-bit range stops the scan with the saturated value before the
    offending character is reached.
   */
  function Atoi(s: string): (r: int)
    ensures IsInt64(r)
    ensures s == [] ==> r == 0
  {
    var negative := |s| > 0 && s[0] == '-';
    var body := Unsigned(s);
    var run := DigitRun(body);
    var magnitude: int := DigitsValue(run);
    if (run == body && body != []) || magnitude > MaxUint64 then
      Clamp64(if negative then -magnitude else magnitude)
    else 0
  }

  /** Reading back what `Itoa` wrote gives the number, for every 64-bit integer. */
  lemma ItoaAtoi(n: int)
    requires IsInt64(n)
    ensures Atoi(Itoa(n)) == n
  {
    var s := Itoa(n);
    var body := if n < 0 then NatDigits(-n) else NatDigits(n);
    assert s[0] == '-' ==> s[1..] == body;
    assert DigitRun(body) == body by {
      AllDigitsRun(body);
    }
  }

  lemma {:induction false} AllDigitsRun(s: string)
    requires AllDigits(s)
    ensures DigitRun(s) == s
    decreases |s|
  {
    if s != [] {
      AllDigitsRun(s[1..]);
    }
  }

  /** A text whose first character is neither a digit nor a sign reads as 0. */
  lemma AtoiRejectsNonDigits(s: string)
    requires s != []
    requires !IsDigit(s[0]) && s[0] != '-' && s[0] != '+'
    ensures Atoi(s) == 0
  {
  }

  /** A lone sign, or a sign followed by anything that is not a digit, also reads as 0. */
  lemma AtoiRejectsBareSign(s: string)
    requires s != [] && (s[0] == '-' || s[0] == '+')
    requires |s| == 1 || !IsDigit(s[1])
    ensures Atoi(s) == 0
  {
  }

  /** The digit run of a text is its digits up to the first character that is not one. */
  lemma {:induction false} DigitRunStops(s: string, k: nat)
    requires k <= |s| && AllDigits(s[..k])
    requires k == |s| || !IsDigit(s[k])
    ensures DigitRun(s) == s[..k]
    decreases k
  {
    if k > 0 {
      assert s[1..][..k - 1] == s[..k][1..];
      DigitRunStops(s[1..], k - 1);
      assert s[..k] == [s[0]] + s[1..][..k - 1];
    }
  }

  /**
    Where `strconv.Atoi` meets a character that is not a digit: after the optional sign,
    `k` digits whose value has not left the unsigned 64-bit range, then something else.
   */
  predicate SyntaxErrorAt(s: string, k: nat) {
    var u := Unsigned(s);
    k < |u| && AllDigits(u[..k]) && !IsDigit(u[k]) && DigitsValue(u[..k]) <= MaxUint64
  }

  /**
    A text `strconv.Atoi` refuses with a syntax error: nothing after the optional sign, or a
    character that is not a digit before the digits leave the 64-bit range (`5x`, `1.5`, `-`, `abc`).
   */
  predicate NotANumber(s: string) {
    Unsigned(s) == [] || exists k :: 0 <= k < |s| && SyntaxErrorAt(s, k)
  }

  /** Every text refused with a syntax error reads as 0, the value Go keeps when it ignores the error. */
  lemma AtoiRejectsText(s: string)
    requires NotANumber(s)
    ensures Atoi(s) == 0
  {
    if Unsigned(s) != [] {
      var k :| 0 <= k < |s| && SyntaxErrorAt(s, k);
      DigitRunStops(Unsigned(s), k);
    }
  }

  /** A sign followed only by digits reads as their value, saturated to the 64-bit range. */
  lemma AtoiReadsNumber(s: string)
    requires Unsigned(s) != [] && AllDigits(Unsigned(s))
    ensures Atoi(s) == Clamp64(Signed(s, DigitsValue(Unsigned(s))))
  {
    AllDigitsRun(Unsigned(s));
  }

  /**
    Once the digits read so far leave the unsigned 64-bit range, the scan stops with the
    saturated value, whatever follows.
   */
  lemma AtoiOverflowStops(s: string, k: nat)
    requires k < |Unsigned(s)| && AllDigits(Unsigned(s)[..k]) && !IsDigit(Unsigned(s)[k])
    requires DigitsValue(Unsigned(s)[..k]) > MaxUint64
    ensures Atoi(s) == Clamp64(Signed(s, DigitsValue(Unsigned(s)[..k])))
  {
    DigitRunStops(Unsigned(s), k);
  }

  /** A digit run past the 64-bit range reads as the largest 64-bit integer (`99999999999999999999`). */
  lemma AtoiSaturates(s: string)
    requires s != [] && AllDigits(s) && DigitsValue(s) > MaxInt64
    ensures Atoi(s) == MaxInt64
  {
    AtoiReadsNumber(s);
  }
}
