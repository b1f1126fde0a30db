/** The `authenticate` middleware: it picks the request's token, verifies it,
    and either lets the request through with the token's claims or answers
    401. Token verification is the library's and is a parameter: `verify`
    gives the claims of a valid token, and `None` where the library throws. */
module AuthMiddleware {
  import opened Base
  import opened AuthSvc

  const AuthRequired: string := "Authentication required"
  const InvalidToken: string := "Invalid or expired token"
  const BearerPrefix: string := "Bearer "

  /** The middleware's decision: go on to the handler as `user`, or reply. */
  datatype Outcome = Proceed(user: Claims) | Stop(reply: Reply<()>)

  /** The token taken from the request: a non-empty cookie first, otherwise
      the Authorization header with its first "Bearer " removed. */
  function TokenOf(cookie: Option<string>, authorization: Option<string>): (t: Option<string>)
    ensures Supplied(cookie) ==> t == cookie
    ensures !Supplied(cookie) && authorization.None? ==> t.None?
    ensures !Supplied(cookie) && authorization.Some? ==>
      t == Some(ReplaceFirst(authorization.value, BearerPrefix, ""))
  {
    if Supplied(cookie) then cookie
    else if authorization.Some? then Some(ReplaceFirst(authorization.value, BearerPrefix, ""))
    else None
  }

  /** `authenticate`: no usable token answers 401 "Authentication required";
      a token that does not verify answers 401 "Invalid or expired token";
      otherwise the request goes on with exactly the verified claims. */
  function Authenticate(cookie: Option<string>, authorization: Option<string>, verify: string -> Option<Claims>)
    : (o: Outcome)
    ensures !Supplied(TokenOf(cookie, authorization)) ==> o == Stop(Reply(401, Problem(AuthRequired)))
    ensures Supplied(TokenOf(cookie, authorization)) ==>
      var t := TokenOf(cookie, authorization).value;
      && (verify(t).None? ==> o == Stop(Reply(401, Problem(InvalidToken))))
      && (verify(t).Some? ==> o == Proceed(verify(t).value))
    ensures o.Stop? ==> o.reply.status == 401
  {
    var token := TokenOf(cookie, authorization);
    if !Supplied(token) then Stop(Reply(401, Problem(AuthRequired)))
    else match verify(token.value)
      case None => Stop(Reply(401, Problem(InvalidToken)))
      case Some(claims) => Proceed(claims)
  }

  /** A request with no cookie and a header "Bearer <t>" is authenticated on
      exactly the token t. */
  lemma {:induction false} BearerHeaderUsesToken(t: string, verify: string -> Option<Claims>)
    requires t != ""
    ensures Authenticate(None, Some(BearerPrefix + t), verify) ==
      if verify(t).Some? then Proceed(verify(t).value) else Stop(Reply(401, Problem(InvalidToken)))
  {
    ReplaceLeadingPattern(BearerPrefix, t);
  }

  /** A header of exactly "Bearer " leaves an empty token, which counts as no
      token at all. */
  lemma {:induction false} BareBearerIsMissing(cookie: Option<string>, verify: string -> Option<Claims>)
    requires !Supplied(cookie)
    ensures Authenticate(cookie, Some(BearerPrefix), verify) == Stop(Reply(401, Problem(AuthRequired)))
  {
    ReplaceLeadingPattern(BearerPrefix, "");
    assert BearerPrefix + "" == BearerPrefix;
  }

  /** With a non-empty cookie the header is never looked at. */
  lemma {:induction false} CookieWins(cookie: string, h1: Option<string>, h2: Option<string>, verify: string -> Option<Claims>)
    requires cookie != ""
    ensures Authenticate(Some(cookie), h1, verify) == Authenticate(Some(cookie), h2, verify)
    ensures Authenticate(Some(cookie), h1, verify).Proceed? <==> verify(cookie).Some?
  {
  }
}
