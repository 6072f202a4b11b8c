/** The bearer-token middleware of the API server (server/src/middleware/auth.js).
    Token verification is an oracle `verify` that yields the payload or nothing
    where `jwt.verify` would throw. */
module AuthMiddleware {
  import opened Common
  import JsStrings

  /** `parseToken`: the header (or "" when it is missing) split on single
      spaces must give exactly two pieces, the first of them "Bearer". A
      missing header is read as "", which has no space, so it yields nothing;
      a found token is the rest of the header after "Bearer " and holds no
      space. */
  function ParseToken(authorization: Option<string>): (token: Option<string>)
    ensures authorization.None? ==> token.None?
    ensures token.Some? ==> authorization == Some("Bearer " + token.value) && ' ' !in token.value
  {
    var header := authorization.GetOr("");
    var parts := JsStrings.Split(header, ' ');
    assert JsStrings.Split("", ' ') == [""];
    assert |parts| == 2 && parts[0] == "Bearer" ==> header == "Bearer " + parts[1] && ' ' !in parts[1] by {
      if |parts| == 2 && parts[0] == "Bearer" {
        JsStrings.SplitJoin(header, ' ');
        assert parts[1..] == [parts[1]];
        assert JsStrings.Join(parts, ' ') == parts[0] + [' '] + parts[1];
      }
    }
    if |parts| == 2 && parts[0] == "Bearer" then Some(parts[1]) else None
  }

  /** A token is found exactly when the header is "Bearer " followed by a
      string without spaces, and the token is that string. */
  lemma {:induction false} ParseTokenExactly(authorization: Option<string>, token: string)
    ensures ParseToken(authorization) == Some(token)
        <==> authorization == Some("Bearer " + token) && ' ' !in token
  {
    if authorization == Some("Bearer " + token) && ' ' !in token {
      assert "Bearer " + token == "Bearer" + [' '] + token;
      JsStrings.SplitAfter("Bearer", token, ' ');
      JsStrings.SplitNoSep(token, ' ');
      assert JsStrings.Split("Bearer " + token, ' ') == ["Bearer", token];
    }
  }

  /** A header without exactly one space never yields a token. */
  lemma {:induction false} ParseTokenNeedsOneSpace(header: string)
    requires JsStrings.Occurrences(header, ' ') != 1
    ensures ParseToken(Some(header)) == None
  {
    JsStrings.SplitLength(header, ' ');
  }

  /** The scheme is compared case-sensitively. */
  lemma ParseTokenLowerCaseScheme()
    ensures ParseToken(Some("bearer x")) == None
  {
    forall t: string ensures ParseToken(Some("bearer x")) != Some(t) {
      ParseTokenExactly(Some("bearer x"), t);
      assert ("Bearer " + t)[0] == 'B';
    }
  }

  /** A second space makes three pieces. */
  lemma ParseTokenTwoSpaces()
    ensures ParseToken(Some("Bearer a b")) == None
  {
    forall t: string ensures ParseToken(Some("Bearer a b")) != Some(t) {
      ParseTokenExactly(Some("Bearer a b"), t);
      if "Bearer a b" == "Bearer " + t {
        assert t == "Bearer a b"[7..];
        assert t[1] == ' ';
      }
    }
  }

  /** "Bearer " yields the empty token, which `Required` treats as missing. */
  lemma ParseTokenEmptyToken()
    ensures ParseToken(Some("Bearer ")) == Some("")
  {
    ParseTokenExactly(Some("Bearer "), "");
    assert "Bearer " == "Bearer " + "";
  }

  /** One request passing through a middleware: the `req.user` slot, what has
      been sent on `res`, and how often `next` has been called. */
  class Exchange {
    const authorization: Option<string>
    var user: Option<Claims>
    var status: Option<nat>
    var error: Option<string>
    var nextCalls: nat

    constructor (authorization: Option<string>)
      ensures this.authorization == authorization
      ensures user == None && status == None && error == None && nextCalls == 0
    {
      this.authorization := authorization;
      user, status, error, nextCalls := None, None, None, 0;
    }

    /** `authMiddleware.required`: an absent or empty token answers 401
        "Missing token", a token `verify` rejects answers 401 "Invalid token",
        and otherwise the payload becomes `req.user` and `next` runs once. */
    method Required(verify: string -> Option<Claims>)
      modifies this
      ensures var token := ParseToken(authorization);
        if token.None? || token.value == "" then
          status == Some(401) && error == Some("Missing token")
          && user == old(user) && nextCalls == old(nextCalls)
        else if verify(token.value).None? then
          status == Some(401) && error == Some("Invalid token")
          && user == old(user) && nextCalls == old(nextCalls)
        else
          user == verify(token.value) && nextCalls == old(nextCalls) + 1
          && status == old(status) && error == old(error)
    {
      var token := ParseToken(authorization);
      if token.None? || token.value == "" {
        status, error := Some(401), Some("Missing token");
        return;
      }
      var payload := verify(token.value);
      if payload.None? {
        status, error := Some(401), Some("Invalid token");
        return;
      }
      user := payload;
      nextCalls := nextCalls + 1;
    }

    /** `authMiddleware.optional`: `next` always runs once and nothing is sent;
        `req.user` is set only when a non-empty token verifies. */
    method Optional(verify: string -> Option<Claims>)
      modifies this
      ensures nextCalls == old(nextCalls) + 1
      ensures status == old(status) && error == old(error)
      ensures var token := ParseToken(authorization);
        user == if token.Some? && token.value != "" && verify(token.value).Some?
                then verify(token.value) else old(user)
    {
      var token := ParseToken(authorization);
      if token.Some? && token.value != "" {
        var payload := verify(token.value);
        if payload.Some? {
          user := payload;
        }
      }
      nextCalls := nextCalls + 1;
    }
  }
}
