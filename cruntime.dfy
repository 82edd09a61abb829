/**
  Models of the pieces of the C library that the interpreter relies on:
  `strstr` as a substring test, `strtol` with its `errno == ERANGE` check
  as a range check against a 64-bit `long`, `printf("%li")` as a function
  to text, and C's truncating integer division.
 */
module CRuntime {
  import opened Wrappers

  const LONG_MIN: int := -0x8000_0000_0000_0000
  const LONG_MAX: int := 0x7FFF_FFFF_FFFF_FFFF

  /** A value a 64-bit `long` can hold. */
  predicate InLong(x: int) {
    LONG_MIN <= x <= LONG_MAX
  }

  // ---------------------------------------------------------------------------
  // strstr

  /** `sub` occurs in `s` starting at index `i`. */
  predicate OccursAt(s: string, sub: string, i: int) {
    0 <= i <= |s| - |sub| && s[i..i + |sub|] == sub
  }

  /** `strstr(s, sub) != NULL`: `sub` occurs somewhere in `s`. */
  function Contains(s: string, sub: string): (r: bool)
    ensures r <==> exists i :: OccursAt(s, sub, i)
    decreases |s|
  {
    if |sub| > |s| then false
    else if s[..|sub|] == sub then assert OccursAt(s, sub, 0); true
    else
      var r := Contains(s[1..], sub);
      assert forall i :: OccursAt(s[1..], sub, i) <==> OccursAt(s, sub, i + 1);
      assert !OccursAt(s, sub, 0);
      assert (exists i :: OccursAt(s, sub, i)) ==> exists i :: OccursAt(s[1..], sub, i) by {
        if exists i :: OccursAt(s, sub, i) {
          var j :| OccursAt(s, sub, j);
          assert OccursAt(s[1..], sub, j - 1);
        }
      }
      r
  }

  // ---------------------------------------------------------------------------
  // Decimal numerals: what the grammar's `number : /-?[0-9]+/` admits

  predicate IsDigit(c: char) {
    '0' <= c <= '9'
  }

  predicate AllDigits(ds: string) {
    forall i :: 0 <= i < |ds| ==> IsDigit(ds[i])
  }

  /** The text matches `-?[0-9]+`. */
  predicate IsNumeral(s: string) {
    if |s| > 0 && s[0] == '-' then |s| > 1 && AllDigits(s[1..])
    else |s| > 0 && AllDigits(s)
  }

  /** The value of a string of decimal digits, most significant first. */
  function DigitsValue(ds: string): nat
    requires AllDigits(ds)
  {
    if ds == [] then 0
    else 10 * DigitsValue(ds[..|ds| - 1]) + (ds[|ds| - 1] - '0') as int
  }

  /** The mathematical value of a numeral, sign included. */
  function DecimalValue(s: string): int
    requires IsNumeral(s)
  {
    var magnitude: int := if s[0] == '-' then DigitsValue(s[1..]) else DigitsValue(s);
    if s[0] == '-' then -magnitude else magnitude
  }

  /**
    `strtol(s, NULL, 10)` followed by the `errno != ERANGE` test, on a numeral:
    the value when a `long` holds it, None when `strtol` reports ERANGE.
   */
  function StrToLong(s: string): Option<int>
    requires IsNumeral(s)
  {
    var x := DecimalValue(s);
    if InLong(x) then Some(x) else None
  }

  // ---------------------------------------------------------------------------
  // printf("%li")

  function DigitChar(d: nat): char
    requires d < 10
  {
    ('0' as int + d) as char
  }

  /** The decimal digits of `n`, without leading zeros. */
  function Digits(n: nat): (ds: string)
    ensures |ds| > 0 && AllDigits(ds)
    ensures |ds| > 1 ==> ds[0] != '0'
  {
    if n < 10 then [DigitChar(n)] else Digits(n / 10) + [DigitChar(n % 10)]
  }

  lemma {:induction false} DigitsRoundTrip(n: nat)
    ensures DigitsValue(Digits(n)) == n
  {
    if n >= 10 {
      var ds := Digits(n);
      assert ds[..|ds| - 1] == Digits(n / 10);
      DigitsRoundTrip(n / 10);
    }
  }

  /** `printf("%li", n)`: a minus sign for negative numbers, then the digits of |n|. */
  function LongToString(n: int): (s: string)
    ensures IsNumeral(s) && DecimalValue(s) == n
  {
    if n < 0 then
      var ds := Digits(-n);
      DigitsRoundTrip(-n);
      assert ("-" + ds)[1..] == ds;
      "-" + ds
    else
      DigitsRoundTrip(n);
      Digits(n)
  }

  /**
    A number printed with `%li` converts back with `strtol` exactly when a
    `long` holds it, and then to the number itself.
   */
  lemma StrToLongOfPrinted(n: int)
    ensures StrToLong(LongToString(n)) == if InLong(n) then Some(n) else None
  {
  }

  // ---------------------------------------------------------------------------
  // C integer division

  function Abs(x: int): nat {
    if x < 0 then -x else x
  }

  /** C's `x / y`: the quotient truncated toward zero (Dafny's `/` is Euclidean). */
  function TruncDiv(x: int, y: int): int
    requires y != 0
  {
    var q := Abs(x) / Abs(y);
    if (x < 0) == (y < 0) then q else -q
  }

  /**
    The truncated quotient is the one whose remainder is smaller than the
    divisor in magnitude and never has the opposite sign of the dividend
    (section 6.5.5 of ISO/IEC 9899:1999).
   */
  lemma TruncDivRemainder(x: int, y: int)
    requires y != 0
    ensures var r := x - TruncDiv(x, y) * y;
      Abs(r) < Abs(y) && (r == 0 || (r < 0 <==> x < 0))
  {
    var a: int, b: int := Abs(x), Abs(y);
    assert a == a / b * b + a % b && 0 <= a % b < b;
    TruncDivTimes(x, y);
  }

  /** In every sign combination, the truncated quotient times the divisor is `|x| / |y| * |y|` with the sign of `x`. */
  lemma TruncDivTimes(x: int, y: int)
    requires y != 0
    ensures TruncDiv(x, y) * y == if x < 0 then -(Abs(x) / Abs(y) * Abs(y)) else Abs(x) / Abs(y) * Abs(y)
  {
    var q, b := Abs(x) / Abs(y), Abs(y);
    if x < 0 && y < 0 {
      NegTimes(q, b);
    } else if x < 0 {
      TimesNeg(q, b);
    } else if y < 0 {
      NegTimesNeg(q, b);
    }
  }

  lemma NegTimes(a: int, b: int)
    ensures a * -b == -(a * b)
  {
  }

  lemma TimesNeg(a: int, b: int)
    ensures -a * b == -(a * b)
  {
  }

  lemma NegTimesNeg(a: int, b: int)
    ensures -a * -b == a * b
  {
  }
}
