/**
 * The few pieces of java.lang behaviour the rest of the model relies on:
 * nullable strings, 32- and 64-bit integer ranges with wrap-around,
 * ASCII case mapping, `contains`/`startsWith`/`indexOf`, decimal printing
 * (`String.valueOf`) and parsing (`Integer.parseInt`, `Long.parseLong`),
 * and the lengths Java reports for a string.
 */
module JavaLang {

  datatype Option<T> = None | Some(value: T)

  /** A Java `String` reference: `None` is `null`. */
  type JString = Option<string>

  const MinInt: int := -0x8000_0000
  const MaxInt: int := 0x7FFF_FFFF
  const MinLong: int := -0x8000_0000_0000_0000
  const MaxLong: int := 0x7FFF_FFFF_FFFF_FFFF

  /** Values of the Java types `int` and `long`. */
  type Int = x: int | MinInt <= x <= MaxInt
  type Long = x: int | MinLong <= x <= MaxLong

  /** Two's-complement wrap-around of `long` arithmetic. */
  function WrapLong(x: int): (r: Long)
    ensures MinLong <= x <= MaxLong ==> r == x
    ensures (r - x) % 0x1_0000_0000_0000_0000 == 0
  {
    (x - MinLong) % 0x1_0000_0000_0000_0000 + MinLong
  }

  /** The narrowing cast `(int)` of a `long`: the low 32 bits. */
  function WrapInt(x: int): (r: Int)
    ensures MinInt <= x <= MaxInt ==> r == x
    ensures (r - x) % 0x1_0000_0000 == 0
  {
    (x - MinInt) % 0x1_0000_0000 + MinInt
  }

  /** Java's `/` for a positive divisor: it rounds toward zero. */
  function TruncDiv(a: int, b: int): (q: int)
    requires b > 0
    ensures (a >= 0 ==> q >= 0) && (a <= 0 ==> q <= 0)
    ensures a >= 0 ==> 0 <= a - q * b < b
    ensures a < 0 ==> -b < a - q * b <= 0
  {
    if a >= 0 then a / b else -((-a) / b)
  }

  // ---------------------------------------------------------------------
  // Characters and case mapping

  predicate IsAsciiLower(c: char) { 'a' <= c <= 'z' }
  predicate IsAsciiUpper(c: char) { 'A' <= c <= 'Z' }
  predicate IsAsciiDigit(c: char) { '0' <= c <= '9' }

  function ToUpperChar(c: char): char
  {
    if IsAsciiLower(c) then (c as int - 32) as char else c
  }

  function ToLowerChar(c: char): char
  {
    if IsAsciiUpper(c) then (c as int + 32) as char else c
  }

  /** `String.toUpperCase()` restricted to ASCII letters. */
  function UpperCase(s: string): (r: string)
    ensures |r| == |s|
    ensures forall i :: 0 <= i < |s| ==> r[i] == ToUpperChar(s[i])
  {
    seq(|s|, i requires 0 <= i < |s| => ToUpperChar(s[i]))
  }

  /** `String.toLowerCase()` restricted to ASCII letters. */
  function LowerCase(s: string): (r: string)
    ensures |r| == |s|
    ensures forall i :: 0 <= i < |s| ==> r[i] == ToLowerChar(s[i])
  {
    seq(|s|, i requires 0 <= i < |s| => ToLowerChar(s[i]))
  }

  // ---------------------------------------------------------------------
  // Substrings

  predicate StartsWith(s: string, prefix: string)
  {
    |prefix| <= |s| && s[..|prefix|] == prefix
  }

  /** `s.contains(t)`, scanning left to right. */
  predicate Contains(s: string, t: string)
    decreases |s|
  {
    StartsWith(s, t) || (|s| > 0 && Contains(s[1..], t))
  }

  /** `t` occurs in `s` starting at index `i`. */
  predicate OccursAt(s: string, t: string, i: int)
  {
    0 <= i <= |s| - |t| && s[i..i + |t|] == t
  }

  /** `Contains` holds exactly when `t` occurs at some index of `s`. */
  lemma {:induction false} ContainsOccurs(s: string, t: string)
    ensures Contains(s, t) <==> exists i :: OccursAt(s, t, i)
    decreases |s|
  {
    if StartsWith(s, t) {
      assert OccursAt(s, t, 0);
    } else if |s| == 0 {
      assert |t| > 0;
    } else {
      ContainsOccurs(s[1..], t);
      if Contains(s[1..], t) {
        var i :| OccursAt(s[1..], t, i);
        assert s[i + 1..i + 1 + |t|] == s[1..][i..i + |t|];
        assert OccursAt(s, t, i + 1);
      } else {
        forall i | OccursAt(s, t, i)
          ensures false
        {
          if i > 0 {
            var u := s[1..];
            forall j | 0 <= j < |t|
              ensures u[i - 1..i - 1 + |t|][j] == t[j]
            {
              assert t[j] == s[i..i + |t|][j];
            }
            assert OccursAt(u, t, i - 1);
          }
        }
      }
    }
  }

  /** `s.indexOf(c)`: the first index holding `c`, or -1. */
  function IndexOf(s: string, c: char): (r: int)
    ensures -1 <= r < |s|
    ensures r == -1 <==> c !in s
    ensures r >= 0 ==> s[r] == c && c !in s[..r]
    decreases |s|
  {
    if |s| == 0 then -1
    else if s[0] == c then 0
    else
      var k := IndexOf(s[1..], c);
      assert k >= 0 ==> s[..k + 1] == [s[0]] + s[1..][..k];
      if k == -1 then -1 else k + 1
  }

  // ---------------------------------------------------------------------
  // Decimal numbers

  predicate IsDigits(d: string)
  {
    forall i :: 0 <= i < |d| ==> IsAsciiDigit(d[i])
  }

  function DigitChar(d: nat): (c: char)
    requires d < 10
    ensures IsAsciiDigit(c)
  {
    ('0' as int + d) as char
  }

  /** The value of a string of decimal digits, most significant first. */
  function DigitsValue(d: string): nat
    requires IsDigits(d)
    decreases |d|
  {
    if |d| == 0 then 0
    else DigitsValue(d[..|d| - 1]) * 10 + (d[|d| - 1] as int - '0' as int)
  }

  /** The shortest decimal digits of `n`. */
  function NatDigits(n: nat): (r: string)
    ensures |r| > 0 && IsDigits(r)
    decreases n
  {
    if n < 10 then [DigitChar(n)] else NatDigits(n / 10) + [DigitChar(n % 10)]
  }

  /** `String.valueOf(n)` for an `int` or a `long`. */
  function DecimalString(n: int): (r: string)
    ensures |r| > 0
  {
    if n < 0 then "-" + NatDigits(-n) else NatDigits(n)
  }

  /**
   * `Integer.parseInt(s)` (with `lo, hi == MinInt, MaxInt`) and
   * `Long.parseLong(s)` (with `MinLong, MaxLong`): an optional sign then at
   * least one digit, and a value in range; `None` where Java throws
   * `NumberFormatException`.
   */
  function ParseDecimal(s: string, lo: int, hi: int): (r: Option<int>)
    ensures r.Some? ==> lo <= r.value <= hi
    ensures r.Some? ==> |s| > 0 && IsDigits(s[1..]) && (IsDigits(s) || s[0] == '-' || s[0] == '+')
  {
    if |s| == 0 then None
    else if s[0] == '-' || s[0] == '+' then
      var body := s[1..];
      if |body| == 0 || !IsDigits(body) then None
      else
        var v: int := if s[0] == '-' then -(DigitsValue(body) as int) else DigitsValue(body);
        if lo <= v <= hi then Some(v) else None
    else if IsDigits(s) then
      var v := DigitsValue(s);
      if lo <= v <= hi then Some(v) else None
    else None
  }

  function ParseInt(s: string): (r: Option<Int>)
  {
    match ParseDecimal(s, MinInt, MaxInt)
    case None => None
    case Some(v) => Some(v)
  }

  function ParseLong(s: string): (r: Option<Long>)
  {
    match ParseDecimal(s, MinLong, MaxLong)
    case None => None
    case Some(v) => Some(v)
  }

  /**
   * The message of the `NumberFormatException` that `Long.parseLong` and
   * `Integer.parseInt` throw for `s` (JDK 17 wording).
   */
  function NumberFormatMessage(s: JString): string
  {
    match s
    case None => "Cannot parse null string: null"
    case Some(t) => "For input string: \"" + t + "\""
  }

  lemma {:induction false} NatDigitsValue(n: nat)
    ensures DigitsValue(NatDigits(n)) == n
    decreases n
  {
    if n >= 10 {
      NatDigitsValue(n / 10);
      var d := NatDigits(n);
      assert d[..|d| - 1] == NatDigits(n / 10);
    }
  }

  /** Parsing reads back what printing wrote, for every value in range. */
  lemma ParseDecimalString(n: int, lo: int, hi: int)
    requires lo <= n <= hi
    ensures ParseDecimal(DecimalString(n), lo, hi) == Some(n)
  {
    if n < 0 {
      var body := NatDigits(-n);
      NatDigitsValue(-n);
      assert DecimalString(n) == "-" + body;
      assert ("-" + body)[1..] == body;
    } else {
      var digits := NatDigits(n);
      NatDigitsValue(n);
      assert DecimalString(n) == digits;
      assert IsAsciiDigit(digits[0]);
    }
  }

  lemma ParseIntString(n: Int)
    ensures ParseInt(DecimalString(n)) == Some(n)
  {
    ParseDecimalString(n, MinInt, MaxInt);
  }

  lemma ParseLongString(n: Long)
    ensures ParseLong(DecimalString(n)) == Some(n)
  {
    ParseDecimalString(n, MinLong, MaxLong);
  }

  /** Printed numbers never contain a line break. */
  lemma DecimalStringHasNoBreak(n: int)
    ensures '\r' !in DecimalString(n) && '\n' !in DecimalString(n)
  {
    var d := DecimalString(n);
    assert forall i :: 0 <= i < |d| ==> d[i] == '-' || IsAsciiDigit(d[i]);
  }

  // ---------------------------------------------------------------------
  // Lengths

  /** `s.length()`: the number of UTF-16 code units. */
  function Utf16Length(s: string): (n: nat)
    ensures |s| <= n <= 2 * |s|
    decreases |s|
  {
    if |s| == 0 then 0 else (if s[0] as int > 0xFFFF then 2 else 1) + Utf16Length(s[1..])
  }

  function Utf8Width(c: char): (w: nat)
    ensures 1 <= w <= 4
  {
    if c as int < 0x80 then 1
    else if c as int < 0x800 then 2
    else if c as int < 0x1_0000 then 3
    else 4
  }

  /** `s.getBytes().length` with UTF-8 as the default charset. */
  function Utf8Length(s: string): (n: nat)
    ensures |s| <= n <= 4 * |s|
    decreases |s|
  {
    if |s| == 0 then 0 else Utf8Width(s[0]) + Utf8Length(s[1..])
  }
}
