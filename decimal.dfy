/**
 * Decimal notation as JavaScript produces and reads it: `Number.prototype.toString()` of a
 * non-negative integer, a zero-padded rendering, and `parseInt(text, 10)`.
 */
module Decimal {
  import opened Wrappers

  /** The character of a decimal digit. */
  function DigitChar(d: nat): (ch: char)
    requires d < 10
    ensures '0' <= ch <= '9' && DigitValue(ch) == d
  {
    "0123456789"[d]
  }

  /** The value of a decimal digit character. */
  function DigitValue(ch: char): nat
    requires '0' <= ch <= '9'
  {
    (ch as int - '0' as int) as nat
  }

  predicate IsDigits(s: string)
  {
    forall i :: 0 <= i < |s| ==> '0' <= s[i] <= '9'
  }

  /** `n.toString()` for a non-negative integer: no sign, no leading zero. */
  function DecimalString(n: nat): (s: string)
    ensures s != [] && IsDigits(s)
    ensures |s| > 1 ==> s[0] != '0'
  {
    if n < 10 then [DigitChar(n)] else DecimalString(n / 10) + [DigitChar(n % 10)]
  }

  /** The number a string of decimal digits denotes (most significant digit first). */
  function ParseDecimal(s: string): nat
    requires IsDigits(s)
  {
    if s == [] then 0 else 10 * ParseDecimal(s[..|s| - 1]) + DigitValue(s[|s| - 1])
  }

  /** Reading back the decimal notation of `n` gives `n`. */
  lemma {:induction false} ParseDecimalString(n: nat)
    ensures ParseDecimal(DecimalString(n)) == n
  {
    var s := DecimalString(n);
    if n >= 10 {
      ParseDecimalString(n / 10);
      assert s[..|s| - 1] == DecimalString(n / 10);
    }
  }

  /** Two different numbers never render to the same string. */
  lemma DecimalStringInjective(m: nat, n: nat)
    ensures DecimalString(m) == DecimalString(n) <==> m == n
  {
    ParseDecimalString(m);
    ParseDecimalString(n);
  }

  function Pow10(k: nat): (p: nat)
    ensures p >= 1
  {
    if k == 0 then 1 else 10 * Pow10(k - 1)
  }

  /** The last `width` decimal digits of `n`, zero-padded on the left (how an authenticator shows a code). */
  function PaddedDecimal(n: nat, width: nat): (s: string)
    ensures |s| == width && IsDigits(s)
  {
    if width == 0 then [] else PaddedDecimal(n / 10, width - 1) + [DigitChar(n % 10)]
  }

  /** Dropping the last digit of a number below `10^width` leaves a number below `10^(width - 1)`. */
  lemma DropDigitBound(n: nat, width: nat)
    requires 0 < width && n < Pow10(width)
    ensures n / 10 < Pow10(width - 1)
  {
    assert Pow10(width) == 10 * Pow10(width - 1);
  }

  /** Reading a padded rendering peels off its last digit, the number's last decimal digit. */
  lemma ParsePaddedStep(n: nat, width: nat)
    requires 0 < width
    ensures ParseDecimal(PaddedDecimal(n, width)) == 10 * ParseDecimal(PaddedDecimal(n / 10, width - 1)) + n % 10
  {
    var s := PaddedDecimal(n, width);
    assert s[..|s| - 1] == PaddedDecimal(n / 10, width - 1);
  }

  /** A number below `10^width` is read back from its padded rendering. */
  lemma {:induction false} ParsePaddedDecimal(n: nat, width: nat)
    requires n < Pow10(width)
    ensures ParseDecimal(PaddedDecimal(n, width)) == n
    decreases width
  {
    if width > 0 {
      DropDigitBound(n, width);
      ParsePaddedDecimal(n / 10, width - 1);
      ParsePaddedStep(n, width);
    }
  }

  /** The characters `parseInt` skips before the number: ECMAScript WhiteSpace and LineTerminator. */
  predicate IsJsSpace(ch: char)
  {
    || ch in {'\t', '\n', '\U{B}', '\U{C}', '\r', ' ', '\U{A0}', '\U{1680}', '\U{2028}', '\U{2029}',
              '\U{202F}', '\U{205F}', '\U{3000}', '\U{FEFF}'}
    || '\U{2000}' <= ch <= '\U{200A}'
  }

  /** The text after the leading white space. */
  function TrimStart(s: string): (t: string)
    ensures |t| <= |s| && t == s[|s| - |t|..]
    ensures t == [] || !IsJsSpace(t[0])
  {
    if s != [] && IsJsSpace(s[0]) then TrimStart(s[1..]) else s
  }

  /** The longest prefix of decimal digits. */
  function DigitPrefix(s: string): (d: string)
    ensures IsDigits(d) && |d| <= |s| && d == s[..|d|]
    ensures |d| < |s| ==> !('0' <= s[|d|] <= '9')
  {
    if s != [] && '0' <= s[0] <= '9' then [s[0]] + DigitPrefix(s[1..]) else []
  }

  /** The text after one leading sign, if there is one. */
  function Unsigned(t: string): string
  {
    if t != [] && (t[0] == '-' || t[0] == '+') then t[1..] else t
  }

  /**
   * `parseInt(s, 10)`: leading white space and one sign are skipped, then the longest run of digits
   * is read and the rest ignored; `None` is `NaN` (no digit at all).
   */
  function JsParseInt(s: string): (v: Option<int>)
    ensures v.None? <==> DigitPrefix(Unsigned(TrimStart(s))) == []
  {
    var t := TrimStart(s);
    var digits := DigitPrefix(Unsigned(t));
    if digits == [] then None
    else if t[0] == '-' then Some(-(ParseDecimal(digits) as int))
    else Some(ParseDecimal(digits) as int)
  }

  /** A non-empty string of digits is read as the number it denotes. */
  lemma ParseIntDigits(s: string)
    requires IsDigits(s) && s != []
    ensures JsParseInt(s) == Some(ParseDecimal(s) as int)
  {
    assert !IsJsSpace(s[0]) && TrimStart(s) == s && Unsigned(s) == s;
    DigitsArePrefix(s);
  }

  /** `parseInt` reads a padded rendering back as the number. */
  lemma ParseIntPadded(n: nat, width: nat)
    requires 0 < width && n < Pow10(width)
    ensures JsParseInt(PaddedDecimal(n, width)) == Some(n)
  {
    ParseIntDigits(PaddedDecimal(n, width));
    ParsePaddedDecimal(n, width);
  }

  /** The longest digit prefix of digits followed by a non-digit is those digits. */
  lemma {:induction false} DigitPrefixStops(d: string, rest: string)
    requires IsDigits(d)
    requires rest == [] || !('0' <= rest[0] <= '9')
    ensures DigitPrefix(d + rest) == d
  {
    if d != [] {
      assert (d + rest)[1..] == d[1..] + rest;
      DigitPrefixStops(d[1..], rest);
    }
  }

  /** `parseInt` reads the leading digits and ignores whatever follows the first non-digit. */
  lemma ParseIntStopsAtNonDigit(d: string, rest: string)
    requires IsDigits(d) && d != []
    requires rest == [] || !('0' <= rest[0] <= '9')
    ensures JsParseInt(d + rest) == Some(ParseDecimal(d) as int)
  {
    var s := d + rest;
    assert s[0] == d[0] && !IsJsSpace(s[0]);
    assert TrimStart(s) == s && Unsigned(s) == s;
    DigitPrefixStops(d, rest);
  }

  /** A string of digits is its own longest digit prefix. */
  lemma {:induction false} DigitsArePrefix(s: string)
    requires IsDigits(s)
    ensures DigitPrefix(s) == s
  {
    if s != [] {
      DigitsArePrefix(s[1..]);
    }
  }
}
