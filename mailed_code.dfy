/**
 * The six-digit code that `sendEmail2FAToken` mails: `Math.floor(100000 + Math.random() * 900000)`
 * rendered with `toString()`, and the decimal notation it is stored in.
 */
module MailedCode {
  import opened Decimal

  /** The code drawn from a `Math.random()` sample `r`, which lies in [0, 1). */
  function DrawCode(r: real): (code: int)
    requires 0.0 <= r < 1.0
    ensures 100000 <= code <= 999999
  {
    (100000.0 + r * 900000.0).Floor
  }

  /** A six-digit string of decimal digits. */
  predicate IsSixDigitCode(s: string)
  {
    |s| == 6 && IsDigits(s)
  }

  /** Every drawn code is rendered as exactly six digits. */
  lemma SixDigitRendering(n: nat)
    requires 100000 <= n <= 999999
    ensures IsSixDigitCode(DecimalString(n))
  {
    var n1 := n / 10;
    var n2 := n1 / 10;
    var n3 := n2 / 10;
    var n4 := n3 / 10;
    var n5 := n4 / 10;
    assert 1 <= n5 < 10;
    assert |DecimalString(n5)| == 1;
    assert |DecimalString(n4)| == 2;
    assert |DecimalString(n3)| == 3;
    assert |DecimalString(n2)| == 4;
    assert |DecimalString(n1)| == 5;
  }
}
