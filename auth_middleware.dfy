/**
 * The bearer-token middleware: reads the `Authorization` header, takes the second space-separated
 * piece as the token, verifies it, and either answers 401 / 403 or lets the request through with the
 * decoded `userId`.
 */
module AuthMiddleware {
  import opened Wrappers
  import opened Crypto

  /** The three ways the middleware ends. `Authenticated` means `next()` is called once. */
  datatype Outcome =
    | NoToken            // 401 'Unauthorized: No token provided'
    | InvalidFormat      // 401 'Unauthorized: Invalid token format'
    | Forbidden          // 403 'Forbidden: Invalid or expired token'
    | Authenticated(userId: nat)
  {
    /** The status of the response the middleware itself sends; an authenticated request sends none. */
    function Status(): (s: nat)
      requires !Authenticated?
      ensures s == 401 <==> NoToken? || InvalidFormat?
      ensures s == 403 <==> Forbidden?
    {
      match this
      case NoToken => 401
      case InvalidFormat => 401
      case Forbidden => 403
    }
  }

  /** The position of the first space in `s`. */
  function FirstSpace(s: string): (i: nat)
    requires ' ' in s
    ensures i < |s| && s[i] == ' ' && ' ' !in s[..i]
  {
    if s[0] == ' ' then 0 else 1 + FirstSpace(s[1..])
  }

  /** `s.split(' ')`: the pieces between single spaces, empty ones included. */
  function Split(s: string): (pieces: seq<string>)
    ensures |pieces| >= 1
    ensures forall i :: 0 <= i < |pieces| ==> ' ' !in pieces[i]
    decreases |s|
  {
    if ' ' in s then
      var i := FirstSpace(s);
      [s[..i]] + Split(s[i + 1..])
    else
      [s]
  }

  /** The pieces glued back together with single spaces. */
  function Join(pieces: seq<string>): string
    requires |pieces| >= 1
  {
    if |pieces| == 1 then pieces[0] else pieces[0] + " " + Join(pieces[1..])
  }

  /** Splitting loses nothing: joining the pieces gives back the header. */
  lemma {:induction false} JoinSplit(s: string)
    ensures Join(Split(s)) == s
    decreases |s|
  {
    if ' ' in s {
      var i := FirstSpace(s);
      JoinSplit(s[i + 1..]);
      assert Split(s)[1..] == Split(s[i + 1..]);
      assert s == s[..i] + " " + s[i + 1..];
    }
  }

  /** A first piece without spaces, then a space: the rest is split on its own. */
  lemma SplitAfterWord(w: string, rest: string)
    requires ' ' !in w
    ensures Split(w + " " + rest) == [w] + Split(rest)
  {
    var s := w + " " + rest;
    assert s[|w|] == ' ';
    assert s[..|w|] == w;
    var i := FirstSpace(s);
    assert s[..i] == w;
    assert s[i + 1..] == rest;
  }

  /** `authHeader.split(' ')[1]`, when that piece exists and is non-empty. */
  function TokenOf(header: string): (token: Option<string>)
    ensures token.Some? ==> token.value != "" && ' ' !in token.value
  {
    var pieces := Split(header);
    if |pieces| >= 2 && pieces[1] != "" then Some(pieces[1]) else None
  }

  /**
   * The middleware. `header` is `req.header('Authorization')`; `verify` is `jwt.verify` with the
   * process-wide key, `None` standing for the exception it throws.
   */
  function Authenticate(header: Option<string>, verify: string -> Option<nat>): (r: Outcome)
    ensures r == NoToken <==> !Truthy(header)
    ensures r == InvalidFormat <==> Truthy(header) && TokenOf(header.value).None?
    ensures r == Forbidden <==> Truthy(header) && TokenOf(header.value).Some? && verify(TokenOf(header.value).value).None?
    ensures r.Authenticated? <==> Truthy(header) && TokenOf(header.value).Some? && verify(TokenOf(header.value).value).Some?
    ensures r.Authenticated? ==> Some(r.userId) == verify(TokenOf(header.value).value)
  {
    if !Truthy(header) then NoToken
    else
      match TokenOf(header.value)
      case None => InvalidFormat
      case Some(token) =>
        match verify(token)
        case None => Forbidden
        case Some(userId) => Authenticated(userId)
  }

  /** Concatenation is associative. */
  lemma Associative<T>(a: seq<T>, b: seq<T>, c: seq<T>)
    ensures a + (b + c) == a + b + c
  {
  }

  /**
   * The token is exactly the text between the first space and the next space (or the end): a header
   * `w + " " + t + rest` with `w`, `t` space-free and `rest` empty or starting with a space yields
   * `t` when `t` is non-empty, and is an invalid format when it is empty.
   */
  lemma {:induction false} TokenIsSecondPiece(w: string, t: string, rest: string)
    requires ' ' !in w && ' ' !in t
    requires rest == [] || rest[0] == ' '
    ensures TokenOf(w + " " + t + rest) == if t == "" then None else Some(t)
  {
    Associative(w + " ", t, rest);
    SplitAfterWord(w, t + rest);
    FirstPieceIsWord(t, rest);
  }

  /** A space-free word followed by nothing or by a space is the first piece. */
  lemma FirstPieceIsWord(t: string, rest: string)
    requires ' ' !in t
    requires rest == [] || rest[0] == ' '
    ensures Split(t + rest)[0] == t
  {
    if rest == [] {
      assert t + rest == t;
    } else {
      var after := rest[1..];
      assert rest == " " + after;
      Associative(t, " ", after);
      SplitAfterWord(t, after);
    }
  }

  /** The first piece runs from the start up to the first space, or to the end when there is none. */
  lemma SplitHead(s: string)
    ensures var h := Split(s)[0]; |h| <= |s| && s[..|h|] == h && (|h| == |s| || s[|h|] == ' ')
  {
    if ' ' in s {
      var i := FirstSpace(s);
      assert Split(s)[0] == s[..i];
    }
  }

  /** There is a second piece exactly when there is a space; the pieces after the first split the text after it. */
  lemma SplitTail(s: string)
    ensures |Split(s)| >= 2 <==> ' ' in s
    ensures ' ' in s ==> Split(s)[1..] == Split(s[FirstSpace(s) + 1..])
  {
  }

  /** A prefix of a suffix is a slice. */
  lemma SliceOfSuffix<T>(s: seq<T>, a: nat, n: nat)
    requires a + n <= |s|
    ensures s[a..][..n] == s[a..a + n]
  {
  }

  /** `t` sits in `header` right after position `i` and is followed by a space or the end. */
  predicate TokenAt(header: string, i: nat, t: string)
  {
    && i + 1 + |t| <= |header|
    && header[i + 1..i + 1 + |t|] == t
    && (i + 1 + |t| == |header| || header[i + 1 + |t|] == ' ')
  }

  /** The first piece of what follows position `i` sits right after `i`. */
  lemma FirstPieceAt(header: string, i: nat)
    requires i < |header|
    ensures TokenAt(header, i, Split(header[i + 1..])[0])
  {
    var tail := header[i + 1..];
    var t := Split(tail)[0];
    SplitHead(tail);
    SliceOfSuffix(header, i + 1, |t|);
  }

  /**
   * Conversely, an extracted token starts right after the header's first space and runs up to the
   * next space or to the end.
   */
  lemma TokenPosition(header: string)
    requires TokenOf(header).Some?
    ensures ' ' in header
    ensures TokenAt(header, FirstSpace(header), TokenOf(header).value)
  {
    SplitTail(header);
    var i := FirstSpace(header);
    assert TokenOf(header).value == Split(header[i + 1..])[0];
    FirstPieceAt(header, i);
  }

  /** The scheme word is never checked: any space-free word in place of `Bearer` does the same. */
  lemma SchemeIgnored(w1: string, w2: string, rest: string, verify: string -> Option<nat>)
    requires ' ' !in w1 && ' ' !in w2
    ensures Authenticate(Some(w1 + " " + rest), verify) == Authenticate(Some(w2 + " " + rest), verify)
  {
    SplitAfterWord(w1, rest);
    SplitAfterWord(w2, rest);
  }

  /** A non-empty header without a space is an invalid format. */
  lemma HeaderWithoutSpace(word: string, verify: string -> Option<nat>)
    requires word != "" && ' ' !in word
    ensures Authenticate(Some(word), verify) == InvalidFormat
  {
  }

  /** Two spaces after a space-free word: the word, an empty piece, then the pieces of the rest. */
  lemma DoubleSpaceSplit(w: string, rest: string)
    requires ' ' !in w
    ensures Split(w + "  " + rest) == [w] + ([""] + Split(rest))
  {
    var tail := " " + rest;
    assert "  " == " " + " ";
    Associative(w, " ", " ");
    Associative(w + " ", " ", rest);
    SplitAfterWord(w, tail);
    assert "" + " " == " ";
    SplitAfterWord("", rest);
  }

  /** Two spaces after the scheme leave an empty second piece: an invalid format. */
  lemma HeaderWithDoubleSpace(w: string, rest: string, verify: string -> Option<nat>)
    requires ' ' !in w
    ensures Authenticate(Some(w + "  " + rest), verify) == InvalidFormat
  {
    DoubleSpaceSplit(w, rest);
    assert Split(w + "  " + rest)[1] == "";
  }

  /**
   * End to end: a token that `login` signed for `userId`, presented as `Bearer <token>`, lets the
   * request through with that `userId`.
   */
  lemma LoginTokenAuthenticates(sign: nat -> string, verify: string -> Option<nat>, userId: nat)
    requires SignVerifyAgree(sign, verify) && CompactTokens(sign)
    ensures Authenticate(Some("Bearer " + sign(userId)), verify) == Authenticated(userId)
  {
    assert "Bearer " + sign(userId) == "Bearer" + " " + sign(userId) + [];
    TokenIsSecondPiece("Bearer", sign(userId), []);
  }
}
