/**
 * The three foreign libraries the handlers call, modelled by their use and not by their internals:
 *   - bcryptjs `hash` / `compare`, as a symbolic one-way digest;
 *   - speakeasy `totp.verify` with `window: 1`, with the RFC 4226 code generator (HOTP) as a parameter
 *     giving the numeric value of the code;
 *   - jsonwebtoken `sign` / `verify`, as a pair of function parameters that agree.
 */
module Crypto {
  import opened Wrappers
  import opened Decimal

  /** A bcrypt digest, kept symbolically: the salt and the cost factor are not modelled. */
  datatype Digest = Bcrypt(preimage: string)

  /** `bcrypt.hash(plaintext, 10)`: the digest determines its plaintext. */
  function Hash(plaintext: string): (d: Digest)
    ensures forall q :: Bcrypt(q) == d ==> q == plaintext
  {
    Bcrypt(plaintext)
  }

  /** `bcrypt.compare(plaintext, digest)`: true exactly for the digest of that plaintext. */
  predicate Compare(plaintext: string, digest: Digest)
    ensures Compare(plaintext, digest) <==> digest == Hash(plaintext)
  {
    digest.preimage == plaintext
  }

  /** A password verifies against its own hash, and against no other password's hash. */
  lemma CompareHash(p: string, q: string)
    ensures Compare(p, Hash(q)) <==> p == q
  {
  }

  // ---------------------------------------------------------------------------------------------
  // Rolling codes (RFC 6238 over RFC 4226)

  /** The time step speakeasy uses by default: 30 seconds, in milliseconds. */
  const TimeStepMs: int := 30000

  /** The moving counter for a clock reading in milliseconds (a floor division, also before 1970). */
  function Counter(nowMs: int): (c: int)
    ensures c * TimeStepMs <= nowMs < (c + 1) * TimeStepMs
  {
    nowMs / TimeStepMs
  }

  /** The number of digits of a code. */
  const CodeDigits: nat := 6

  /**
   * `s.length` in JavaScript: the number of UTF-16 code units, so a character beyond U+FFFF (a
   * surrogate pair) counts twice.
   */
  function JsLength(s: string): (n: nat)
    ensures |s| <= n <= 2 * |s|
    ensures (forall i :: 0 <= i < |s| ==> s[i] <= '\U{FFFF}') ==> n == |s|
  {
    if s == [] then 0 else (if s[0] <= '\U{FFFF}' then 1 else 2) + JsLength(s[1..])
  }

  /** `String(token)` of a request field: an absent token becomes the text "undefined". */
  function TokenString(token: Option<string>): (s: string)
    ensures token.Some? ==> s == token.value
    ensures token.None? ==> JsLength(s) != CodeDigits
  {
    if token.Some? then token.value else "undefined"
  }

  /**
   * `speakeasy.totp.verify({ secret, token, window: 1 })` at clock `nowMs`. The submitted token (its
   * `String()` form) must be six UTF-16 code units long; it is then read with `parseInt` and
   * compared, as a number, with the codes of the current counter and of its two neighbours.
   * `hotp(secret, c)` is the numeric value of the RFC 4226 code of the secret at counter `c`.
   */
  predicate TotpAccepts(hotp: (string, int) -> int, secret: string, token: string, nowMs: int)
    ensures TotpAccepts(hotp, secret, token, nowMs) ==> JsLength(token) == CodeDigits && JsParseInt(token).Some?
    ensures TotpAccepts(hotp, secret, token, nowMs) ==> 3 <= |token| <= CodeDigits
  {
    var c := Counter(nowMs);
    var v := JsParseInt(token);
    && JsLength(token) == CodeDigits
    && v.Some?
    && (v.value == hotp(secret, c - 1) || v.value == hotp(secret, c) || v.value == hotp(secret, c + 1))
  }

  /** An absent token is checked as "undefined", nine characters long, and is never accepted. */
  lemma MissingTokenRejected(hotp: (string, int) -> int, secret: string, nowMs: int)
    ensures !TotpAccepts(hotp, secret, TokenString(None), nowMs)
  {
  }

  /** Five digits and one character beyond U+FFFF: seven code units. */
  lemma FiveDigitsAndAstral()
    ensures JsLength("12345\U{1F600}") == 7
  {
    var t := "12345\U{1F600}";
    assert t[1..][1..][1..][1..][1..] == "\U{1F600}";
    assert JsLength("\U{1F600}") == 2;
  }

  /** Four digits and one character beyond U+FFFF: six code units. */
  lemma FourDigitsAndAstralLength()
    ensures JsLength("1234\U{1F600}") == 6
  {
    var t := "1234\U{1F600}";
    assert t[1..][1..][1..][1..] == "\U{1F600}";
    assert JsLength("\U{1F600}") == 2;
  }

  /** `parseInt` reads four digits followed by a character beyond U+FFFF as the four digits. */
  lemma FourDigitsAndAstralValue()
    ensures JsParseInt("1234\U{1F600}") == Some(1234)
  {
    assert "1234\U{1F600}" == "1234" + "\U{1F600}";
    ParseIntStopsAtNonDigit("1234", "\U{1F600}");
    FourDigitsValue();
  }

  /** The digits "1234" denote 1234. */
  lemma FourDigitsValue()
    ensures ParseDecimal("1234") == 1234
  {
    assert "1234"[..3] == "123" && "123"[..2] == "12" && "12"[..1] == "1" && "1"[..0] == "";
  }

  /**
   * The length test counts UTF-16 code units: a token of five digits and one character beyond
   * U+FFFF is seven units long and rejected, while four digits and such a character make six units,
   * and are accepted when `parseInt`'s reading of the four digits is the current code.
   */
  lemma TotpLengthInCodeUnits(hotp: (string, int) -> int, secret: string, nowMs: int)
    ensures !TotpAccepts(hotp, secret, "12345\U{1F600}", nowMs)
    ensures hotp(secret, Counter(nowMs)) == 1234 ==> TotpAccepts(hotp, secret, "1234\U{1F600}", nowMs)
  {
    FiveDigitsAndAstral();
    FourDigitsAndAstralLength();
    FourDigitsAndAstralValue();
  }

  /** What an authenticator displays for the code `code`: zero-padded to six digits. */
  function Displayed(code: nat): (token: string)
    ensures |token| == CodeDigits && IsDigits(token) && JsLength(token) == CodeDigits
  {
    PaddedDecimal(code, CodeDigits)
  }

  /** The codes of one secret differ between counters (needed to speak of rejection). */
  ghost predicate DistinctCodes(hotp: (string, int) -> int, secret: string)
  {
    forall a: int, b: int :: a != b ==> hotp(secret, a) != hotp(secret, b)
  }

  /** Moving the clock by one step moves the counter by exactly one. */
  lemma CounterShift(t: int)
    ensures Counter(t + TimeStepMs) == Counter(t) + 1
    ensures Counter(t - TimeStepMs) == Counter(t) - 1
  {
    var c := Counter(t);
    var r := t % TimeStepMs;
    assert t == c * TimeStepMs + r && 0 <= r < TimeStepMs;
    assert t + TimeStepMs == (c + 1) * TimeStepMs + r;
    assert t - TimeStepMs == (c - 1) * TimeStepMs + r;
  }

  /** The displayed code reads back, through `parseInt`, as the code itself. */
  lemma DisplayedParses(code: nat)
    requires code < Pow10(CodeDigits)
    ensures JsParseInt(Displayed(code)) == Some(code)
  {
    ParseIntPadded(code, CodeDigits);
  }

  /** The window: the code displayed at time `t0` is accepted at any time whose counter is within one of `t0`'s. */
  lemma TotpWindow(hotp: (string, int) -> int, secret: string, t0: int, t: int)
    requires 0 <= hotp(secret, Counter(t0)) < Pow10(CodeDigits)
    requires -1 <= Counter(t) - Counter(t0) <= 1
    ensures TotpAccepts(hotp, secret, Displayed(hotp(secret, Counter(t0))), t)
  {
    var c0, c := Counter(t0), Counter(t);
    var token := Displayed(hotp(secret, c0));
    DisplayedParses(hotp(secret, c0));
    assert |token| == CodeDigits && JsParseInt(token) == Some(hotp(secret, c0));
    assert c0 == c - 1 || c0 == c || c0 == c + 1;
  }

  /** When the codes of the secret are distinct, the code displayed at `t0` is accepted at no other time. */
  lemma TotpWindowOnly(hotp: (string, int) -> int, secret: string, t0: int, t: int)
    requires 0 <= hotp(secret, Counter(t0)) < Pow10(CodeDigits)
    requires DistinctCodes(hotp, secret)
    requires TotpAccepts(hotp, secret, Displayed(hotp(secret, Counter(t0))), t)
    ensures -1 <= Counter(t) - Counter(t0) <= 1
  {
    var c0, c := Counter(t0), Counter(t);
    DisplayedParses(hotp(secret, c0));
    var v := hotp(secret, c0);
    assert v == hotp(secret, c - 1) || v == hotp(secret, c) || v == hotp(secret, c + 1);
    if v == hotp(secret, c - 1) {
      assert c0 == c - 1;
    } else if v == hotp(secret, c) {
      assert c0 == c;
    } else {
      assert c0 == c + 1;
    }
  }

  /** A code displayed at `t0` is accepted one step earlier, at `t0` and one step later. */
  lemma TotpSkewTolerance(hotp: (string, int) -> int, secret: string, t0: int)
    requires 0 <= hotp(secret, Counter(t0)) < Pow10(CodeDigits)
    ensures TotpAccepts(hotp, secret, Displayed(hotp(secret, Counter(t0))), t0 - TimeStepMs)
    ensures TotpAccepts(hotp, secret, Displayed(hotp(secret, Counter(t0))), t0)
    ensures TotpAccepts(hotp, secret, Displayed(hotp(secret, Counter(t0))), t0 + TimeStepMs)
  {
    CounterShift(t0);
    ParseIntPadded(hotp(secret, Counter(t0)), CodeDigits);
  }

  // ---------------------------------------------------------------------------------------------
  // JSON Web Tokens (RFC 7519), signed with the process-wide secret folded into `sign` / `verify`

  /** `jwt.verify(jwt.sign({ userId }, key), key)` decodes to the same `userId`. */
  ghost predicate SignVerifyAgree(sign: nat -> string, verify: string -> Option<nat>)
  {
    forall u: nat :: verify(sign(u)) == Some(u)
  }

  /** A compact JWS serialization is non-empty and contains no space character. */
  ghost predicate CompactTokens(sign: nat -> string)
  {
    forall u: nat :: sign(u) != "" && ' ' !in sign(u)
  }
}
