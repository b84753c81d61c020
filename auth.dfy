/**
 * What the two `isAuth` middlewares share: the request they inspect and update, the
 * `Authorization` header parsing (`startsWith("Bearer ")`, then `split(" ")[1]`), and the
 * token verifier, which is outside the model and is passed in.
 */
module AuthHeader {
  import opened Wrappers
  import opened Text

  const BearerPrefix: string := "Bearer "

  /** The decoded token; its claims may be missing. */
  datatype Payload = Payload(id: Option<string>, email: Option<string>)

  /** `verifyToken(token)`: it either throws, or returns a payload or nothing. */
  datatype Verdict = Threw | Returned(payload: Option<Payload>)

  /** What the middleware stores in `req.user`. */
  datatype AuthUser = AuthUser(userId: Option<string>, email: Option<string>)

  /** The header check's three outcomes. */
  datatype HeaderCheck = NoBearer | EmptyToken | Token(token: string)

  /**
   * A header that is absent, empty or without the `Bearer ` prefix fails; otherwise the token
   * is the second space-separated word, which is empty for `"Bearer "` or a doubled space.
   */
  function ParseHeader(header: Option<string>): (r: HeaderCheck)
    ensures r == NoBearer <==> header.None? || !StartsWith(header.value, BearerPrefix)
    ensures r.Token? ==> r.token != "" && ' ' !in r.token
  {
    if header.None? || header.value == "" || !StartsWith(header.value, BearerPrefix) then NoBearer
    else
      var parts := Split(header.value, ' ');
      assert header.value[6] == ' ';
      var token := parts[1];
      if token == "" then EmptyToken else Token(token)
  }

  /** The token of `"Bearer " + rest` is `rest` up to its first space. */
  lemma {:induction false} TokenIsFirstWordAfterPrefix(rest: string)
    ensures ParseHeader(Some(BearerPrefix + rest)) ==
      (if Split(rest, ' ')[0] == "" then EmptyToken else Token(Split(rest, ' ')[0]))
    ensures ' ' !in rest && rest != "" ==> ParseHeader(Some(BearerPrefix + rest)) == Token(rest)
  {
    var h := BearerPrefix + rest;
    assert h == "Bearer" + [' '] + rest;
    assert h[..|BearerPrefix|] == BearerPrefix;
    IndexOfAfterPrefix("Bearer", ' ', rest);
    assert h[7..] == rest;
    if ' ' !in rest && rest != "" {
      assert Split(rest, ' ') == [rest];
    }
  }

  lemma TokenExample()
    ensures ParseHeader(Some("Bearer abc")) == Token("abc")
  {
    TokenIsFirstWordAfterPrefix("abc");
    assert BearerPrefix + "abc" == "Bearer abc";
  }

  lemma BareBearerExample()
    ensures ParseHeader(Some("Bearer ")) == EmptyToken
  {
    TokenIsFirstWordAfterPrefix("");
    assert BearerPrefix + "" == "Bearer ";
  }

  lemma DoubleSpaceExample()
    ensures ParseHeader(Some("Bearer  abc")) == EmptyToken
  {
    TokenIsFirstWordAfterPrefix(" abc");
    assert BearerPrefix + " abc" == "Bearer  abc";
    assert IndexOf(" abc", ' ') == 0;
    assert Split(" abc", ' ')[0] == "";
  }

  lemma NoBearerExamples()
    ensures ParseHeader(Some("bearer abc")) == NoBearer
    ensures ParseHeader(Some("Bearer")) == NoBearer
    ensures ParseHeader(None) == NoBearer
  {
    assert "bearer abc"[0] != BearerPrefix[0];
  }

  datatype Response = Response(status: int, message: string)

  /** An Express request as the middleware sees it: its header, `req.user`, and what it did. */
  class Request {
    const authorization: Option<string>
    var user: Option<AuthUser>
    var nextCalls: nat
    var responses: seq<Response>

    constructor (authorization: Option<string>)
      ensures this.authorization == authorization && user.None? && nextCalls == 0 && responses == []
    {
      this.authorization := authorization;
      user := None;
      nextCalls := 0;
      responses := [];
    }
  }

  /** The middleware's decision: pass the user on, or answer 401 with a message. */
  datatype Decision = Allow(user: AuthUser) | Deny(message: string)

  /**
   * Carries out a decision on the request: an allowed one sets `req.user` and calls `next()`
   * once; a denied one sends one 401 and leaves `req.user` alone.
   */
  method Apply(req: Request, d: Decision)
    modifies req
    ensures d.Allow? ==> && req.user == Some(d.user) && req.nextCalls == old(req.nextCalls) + 1
                         && req.responses == old(req.responses)
    ensures d.Deny? ==> && req.user == old(req.user) && req.nextCalls == old(req.nextCalls)
                        && req.responses == old(req.responses) + [Response(401, d.message)]
  {
    match d
    case Allow(u) =>
      req.user := Some(u);
      req.nextCalls := req.nextCalls + 1;
    case Deny(message) =>
      req.responses := req.responses + [Response(401, message)];
  }
}

/** The user service's `isAuth`: every failure answers 401 "Unauthorized". */
module UserAuth {
  import opened Wrappers
  import opened AuthHeader

  const Unauthorized: string := "Unauthorized"

  /** A falsy verifier result and a thrown error are both refused. */
  function Authenticate(header: Option<string>, verify: string -> Verdict): (d: Decision)
    ensures d.Deny? ==> d.message == Unauthorized
    ensures d.Allow? <==> ParseHeader(header).Token? && verify(ParseHeader(header).token).Returned?
                          && verify(ParseHeader(header).token).payload.Some?
    ensures d.Allow? ==> var p := verify(ParseHeader(header).token).payload.value;
                         d.user == AuthUser(p.id, p.email)
  {
    match ParseHeader(header)
    case NoBearer => Deny(Unauthorized)
    case EmptyToken => Deny(Unauthorized)
    case Token(token) =>
      match verify(token)
      case Threw => Deny(Unauthorized)
      case Returned(None) => Deny(Unauthorized)
      case Returned(Some(p)) => Allow(AuthUser(p.id, p.email))
  }

  method IsAuth(req: Request, verify: string -> Verdict)
    modifies req
    ensures var d := Authenticate(req.authorization, verify);
      && (d.Allow? ==> req.user == Some(d.user) && req.nextCalls == old(req.nextCalls) + 1
                       && req.responses == old(req.responses))
      && (d.Deny? ==> req.user == old(req.user) && req.nextCalls == old(req.nextCalls)
                      && req.responses == old(req.responses) + [Response(401, Unauthorized)])
  {
    var header := req.authorization;
    var check := ParseHeader(header);
    if check.NoBearer? || check.EmptyToken? {
      Apply(req, Deny(Unauthorized));
      return;
    }
    var decoded := verify(check.token);
    if decoded.Threw? || decoded.payload.None? {
      Apply(req, Deny(Unauthorized));
      return;
    }
    Apply(req, Allow(AuthUser(decoded.payload.value.id, decoded.payload.value.email)));
  }
}

/**
 * The chat service's `isAuth`: a missing bearer header has its own message, and a verifier
 * that yields nothing makes reading `decoded.id` throw, which the catch turns into 401.
 */
module ChatAuth {
  import opened Wrappers
  import opened AuthHeader
  import UserAuth

  const NoAuthHeader: string := "Please login - No Auth Header"
  const Unauthorized: string := "Unauthorized"

  function Authenticate(header: Option<string>, verify: string -> Verdict): (d: Decision)
    ensures ParseHeader(header).NoBearer? <==> d == Deny(NoAuthHeader)
    ensures d.Deny? && !ParseHeader(header).NoBearer? ==> d.message == Unauthorized
    ensures d.Allow? <==> ParseHeader(header).Token? && verify(ParseHeader(header).token).Returned?
                          && verify(ParseHeader(header).token).payload.Some?
  {
    match ParseHeader(header)
    case NoBearer => Deny(NoAuthHeader)
    case EmptyToken => Deny(Unauthorized)
    case Token(token) =>
      match verify(token)
      case Threw => Deny(Unauthorized)
      case Returned(decoded) =>
        if decoded.None? then Deny(Unauthorized)
        else Allow(AuthUser(decoded.value.id, decoded.value.email))
  }

  /**
   * The two middlewares admit the same requests with the same `req.user`, and refuse the
   * same requests; they differ only in the message for a header without a bearer token.
   */
  lemma SameAsUserService(header: Option<string>, verify: string -> Verdict)
    ensures Authenticate(header, verify).Allow? <==> UserAuth.Authenticate(header, verify).Allow?
    ensures Authenticate(header, verify).Allow? ==>
              Authenticate(header, verify) == UserAuth.Authenticate(header, verify)
    ensures !ParseHeader(header).NoBearer? ==>
              Authenticate(header, verify) == UserAuth.Authenticate(header, verify)
  {
  }

  method IsAuth(req: Request, verify: string -> Verdict)
    modifies req
    ensures var d := Authenticate(req.authorization, verify);
      && (d.Allow? ==> req.user == Some(d.user) && req.nextCalls == old(req.nextCalls) + 1
                       && req.responses == old(req.responses))
      && (d.Deny? ==> req.user == old(req.user) && req.nextCalls == old(req.nextCalls)
                      && req.responses == old(req.responses) + [Response(401, d.message)])
  {
    var check := ParseHeader(req.authorization);
    if check.NoBearer? {
      Apply(req, Deny(NoAuthHeader));
      return;
    }
    if check.EmptyToken? {
      Apply(req, Deny(Unauthorized));
      return;
    }
    var decoded := verify(check.token);
    if decoded.Threw? || decoded.payload.None? {
      Apply(req, Deny(Unauthorized));
      return;
    }
    Apply(req, Allow(AuthUser(decoded.payload.value.id, decoded.payload.value.email)));
  }
}
