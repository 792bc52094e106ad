/** The request guard (`verifyToken`): find a token in the `Authorization`
    header or the `access_token` cookie, verify it, and either answer the
    request or attach the payload to it and pass it on. */
module Guard {
  import opened Values
  import opened Strings
  import opened Crypto
  import opened Http

  const BearerPrefix := "Bearer "
  const NotAuthenticated := "You are not authenticated!"
  const TokenNotValid := "Token is not valid!"

  /** A header that starts with `Bearer ` splits on spaces into `Bearer`
      and, second, the text up to the next space. */
  lemma BearerSplit(h: string)
    requires StartsWith(h, BearerPrefix)
    ensures |Split(h, ' ')| >= 2
    ensures Split(h, ' ')[1] == Word(h[7..], ' ')
  {
    assert h[..7] == BearerPrefix;
    assert forall i :: 0 <= i < 6 ==> h[i] == BearerPrefix[i] && h[i] != ' ';
    assert h[6] == ' ';
    assert Find(h, ' ') == 6;
  }

  /** What `authHeader.split(" ")[1]` gives when the header is truthy and
      starts with `Bearer `, `None` otherwise. */
  function HeaderPiece(authorization: Option<string>): (r: Option<string>)
    ensures r.Some? <==> authorization.Some? && StartsWith(authorization.value, BearerPrefix)
    ensures r.Some? ==> r.value == Word(authorization.value[7..], ' ')
  {
    if authorization.Some? && authorization.value != "" && StartsWith(authorization.value, BearerPrefix) then
      BearerSplit(authorization.value);
      Some(Split(authorization.value, ' ')[1])
    else None
  }

  /** The token the guard goes on with: the header's when it supplies a
      non-empty one, otherwise a non-empty `access_token` cookie. The
      prefix is case-sensitive, and a header such as `Bearer ` or
      `Bearer  x` supplies nothing, so the cookie is used. */
  function ExtractToken(authorization: Option<string>, cookie: Option<string>): (t: Option<string>)
    ensures t.Some? ==> t.value != ""
    ensures authorization.Some? && StartsWith(authorization.value, BearerPrefix) && Word(authorization.value[7..], ' ') != ""
            ==> t == Some(Word(authorization.value[7..], ' '))
    ensures !(authorization.Some? && StartsWith(authorization.value, BearerPrefix) && Word(authorization.value[7..], ' ') != "")
            ==> t == (if Given(cookie) then cookie else None)
    ensures t.None? <==> !(authorization.Some? && StartsWith(authorization.value, BearerPrefix) && Word(authorization.value[7..], ' ') != "") && !Given(cookie)
  {
    var fromHeader := HeaderPiece(authorization);
    if fromHeader.Some? && fromHeader.value != "" then fromHeader
    else if Given(cookie) then cookie
    else None
  }

  /** One request as the guard sees it: the two places a token may come
      from, the user slot it fills and the middleware chain it continues. */
  class Exchange {
    const authorization: Option<string>   // req.headers.authorization
    const accessToken: Option<string>     // req.cookies.access_token
    var user: Option<Claims>              // req.user
    var response: Option<Response>        // what was sent on res, if anything
    var nextCalls: nat                    // how many times next() ran

    constructor (authorization: Option<string>, accessToken: Option<string>)
      ensures this.authorization == authorization && this.accessToken == accessToken
      ensures user.None? && response.None? && nextCalls == 0
    {
      this.authorization := authorization;
      this.accessToken := accessToken;
      user := None;
      response := None;
      nextCalls := 0;
    }

    /** No token gives 401; a token that does not verify gives 403; in
        both cases `req.user` is untouched and `next` is not called. A
        verified token sets `req.user` to its payload and calls `next`
        once, sending nothing. */
    method VerifyToken(verify: string -> Option<Claims>)
      modifies this
      ensures match ExtractToken(authorization, accessToken)
              case None =>
                && response == Some(Reply(401, Text(NotAuthenticated)))
                && user == old(user) && nextCalls == old(nextCalls)
              case Some(t) =>
                match verify(t)
                case None =>
                  && response == Some(Reply(403, Text(TokenNotValid)))
                  && user == old(user) && nextCalls == old(nextCalls)
                case Some(payload) =>
                  && user == Some(payload) && nextCalls == old(nextCalls) + 1
                  && response == old(response)
    {
      var token: Option<string> := None;
      var authHeader := authorization;
      if authHeader.Some? && authHeader.value != "" && StartsWith(authHeader.value, BearerPrefix) {
        BearerSplit(authHeader.value);
        token := Some(Split(authHeader.value, ' ')[1]);
      }
      if !(token.Some? && token.value != "") && Given(accessToken) {
        token := accessToken;
      }
      if !(token.Some? && token.value != "") {
        response := Some(Reply(401, Text(NotAuthenticated)));
        return;
      }
      var decoded := verify(token.value);
      if decoded.None? {
        response := Some(Reply(403, Text(TokenNotValid)));
        return;
      }
      user := decoded;
      nextCalls := nextCalls + 1;
    }
  }

  /** The prefix is case-sensitive: a lower-case `bearer` header is ignored. */
  lemma LowerCaseBearerIgnored(cookie: Option<string>)
    ensures ExtractToken(Some("bearer abc"), cookie) == ExtractToken(None, cookie)
  {
    assert !StartsWith("bearer abc", BearerPrefix) by {
      assert "bearer abc"[0] != BearerPrefix[0];
    }
  }

  /** `Bearer ` with nothing after it, or with a second space, supplies an
      empty piece, so the cookie decides. */
  lemma EmptyPieceFallsBack(cookie: Option<string>)
    ensures ExtractToken(Some("Bearer "), cookie) == ExtractToken(None, cookie)
    ensures ExtractToken(Some("Bearer  abc"), cookie) == ExtractToken(None, cookie)
  {
    assert StartsWith("Bearer ", BearerPrefix);
    assert "Bearer "[7..] == "";
    assert StartsWith("Bearer  abc", BearerPrefix) by {
      assert "Bearer  abc"[..7] == BearerPrefix;
    }
    assert "Bearer  abc"[7..] == " abc";
    assert Find(" abc", ' ') == 0;
  }

  /** Only the text up to the next space is the token. */
  lemma TokenStopsAtSpace(cookie: Option<string>)
    ensures ExtractToken(Some("Bearer abc def"), cookie) == Some("abc")
  {
    var h := "Bearer abc def";
    assert StartsWith(h, BearerPrefix) by {
      assert h[..7] == BearerPrefix;
    }
    var rest := h[7..];
    assert rest == "abc def";
    assert Find("abc def", ' ') == 3 by {
      assert "abc def"[..3] == "abc";
      assert "abc def"[3] == ' ';
      assert forall i :: 0 <= i < 3 ==> "abc def"[i] != ' ';
    }
    assert rest[..3] == "abc";
  }
}
