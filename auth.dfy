/** The `authMiddleware` gate in front of every protected route: read a
    bearer token from the `Authorization` header, have the auth service
    verify it, and either attach the user to the request or answer 401/500.
    The auth service's `getUser` is the oracle `verify`. */
module Auth {
  import opened Values
  import opened Strings

  const Bearer: string := "Bearer "
  const NoToken: string := "No token provided"
  const BadToken: string := "Invalid or expired token"

  /** The authenticated user as the auth service reports it. */
  datatype User = User(id: string, email: string)

  /** What `getUser(token)` gives: a user, an error or no user, or an
      exception. */
  datatype Verification = Verified(user: User) | Rejected | Crashed

  /** How the gate ends: the request goes on to the route with a user, or a
      status and an error message are sent. */
  datatype Gate = Admitted(user: User) | Refused(status: int, message: string)

  /** The token of `authHeader.substring(7)`, when the header passes
      `!authHeader || !authHeader.startsWith('Bearer ')`. */
  function BearerToken(header: Option<string>): (r: Option<string>)
    ensures r.Some? <==> header.Some? && StartsWith(header.value, Bearer)
    ensures r.Some? ==> header.value == Bearer + r.value
  {
    if header.Some? && header.value != "" && StartsWith(header.value, Bearer)
    then Some(header.value[|Bearer|..])
    else None
  }

  /** A token sent as "Bearer " followed by it is read back unchanged. */
  lemma BearerRoundTrip(token: string)
    ensures BearerToken(Some(Bearer + token)) == Some(token)
  {
    assert (Bearer + token)[..|Bearer|] == Bearer;
    assert (Bearer + token)[|Bearer|..] == token;
  }

  /** A header of exactly "Bearer " gives the empty token, which is then
      passed to the auth service. */
  lemma BareBearerEmptyToken()
    ensures BearerToken(Some(Bearer)) == Some("")
  {
    BearerRoundTrip("");
    assert Bearer + "" == Bearer;
  }

  /** The scheme is case-sensitive: "bearer " is not accepted. */
  lemma LowercaseRejected(token: string)
    ensures BearerToken(Some("bearer " + token)) == None
  {
    assert ("bearer " + token)[0] == 'b';
  }

  /** The decision of `authMiddleware`. */
  function Decide(header: Option<string>, verify: string -> Verification): (r: Gate)
    ensures BearerToken(header).None? ==> r == Refused(401, NoToken)
    ensures r.Admitted? <==> BearerToken(header).Some? && verify(BearerToken(header).value).Verified?
    ensures r.Admitted? ==> verify(BearerToken(header).value) == Verified(r.user)
    ensures BearerToken(header).Some? && verify(BearerToken(header).value) == Rejected ==>
              r == Refused(401, BadToken)
    ensures BearerToken(header).Some? && verify(BearerToken(header).value) == Crashed ==>
              r == Refused(500, InternalError)
  {
    match BearerToken(header)
    case None => Refused(401, NoToken)
    case Some(token) =>
      match verify(token)
      case Verified(user) => Admitted(user)
      case Rejected => Refused(401, BadToken)
      case Crashed => Refused(500, InternalError)
  }

  /** Without a bearer header the auth service is not consulted: the
      answer is the same whatever it would say. */
  lemma NoTokenNoVerify(header: Option<string>, v1: string -> Verification, v2: string -> Verification)
    requires BearerToken(header).None?
    ensures Decide(header, v1) == Decide(header, v2) == Refused(401, NoToken)
  {
  }

  /** An incoming request: its `Authorization` header and the `user` the gate
      attaches. */
  class Request {
    const authorization: Option<string>
    var user: Option<User>

    constructor (authorization: Option<string>)
      ensures this.authorization == authorization && user == None
    {
      this.authorization := authorization;
      user := None;
    }
  }

  /** `authMiddleware(req, res, next)`: on success `req.user` is set and
      `next` is called (`proceeds`), and no reply is sent; otherwise the reply
      is sent and the request is left as it was. */
  method Authenticate(req: Request, verify: string -> Verification) returns (proceeds: bool, reply: Option<Reply<()>>)
    modifies req
    ensures proceeds <==> Decide(req.authorization, verify).Admitted?
    ensures proceeds ==> req.user == Some(Decide(req.authorization, verify).user) && reply == None
    ensures !proceeds ==> req.user == old(req.user) &&
                          reply == Some(Err(Decide(req.authorization, verify).status, Decide(req.authorization, verify).message))
  {
    match Decide(req.authorization, verify)
    case Admitted(u) =>
      req.user := Some(u);
      proceeds, reply := true, None;
    case Refused(status, message) =>
      proceeds, reply := false, Some(Err(status, message));
  }
}
