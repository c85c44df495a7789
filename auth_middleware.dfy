/** The `authenticate` and `requireRole` middleware: who a request speaks
    for, and whether that role may go on. */
module AuthMiddleware {
  import opened Common
  import opened Text
  import opened Models
  import opened Jwt

  /** Why `authenticate` refused a request, in the order it checks. */
  datatype Rejection = MissingToken | MissingSecret | InvalidToken | UnknownUser | StaleToken

  /** The HTTP status each refusal is answered with. */
  function Status(r: Rejection): int {
    match r
    case MissingToken => 401
    case MissingSecret => 500
    case InvalidToken => 403
    case UnknownUser => 401
    case StaleToken => 401
  }

  /** Accept carries what `authenticate` stores in `req.user`. */
  datatype AuthOutcome = Accept(user: Payload) | Reject(reason: Rejection)

  const Prefix: string := "Bearer "

  /** The token of an `Authorization` header: what follows an exact
      `"Bearer "` prefix, trimmed; "" when the header is missing or has
      another form (a missing token and an empty one are both refused). */
  function BearerToken(authorization: Option<string>): (t: string)
    ensures !StartsWith(authorization.GetOr(""), Prefix) ==> t == ""
    ensures t != "" ==> StartsWith(authorization.GetOr(""), Prefix) && Trimmed(t)
    ensures StartsWith(authorization.GetOr(""), Prefix) ==> |t| <= |authorization.value| - |Prefix|
    ensures StartsWith(authorization.GetOr(""), Prefix) ==> t == Trim(authorization.value[|Prefix|..])
  {
    var h := authorization.GetOr("");
    if StartsWith(h, Prefix) then Trim(h[|Prefix|..]) else ""
  }

  /** A header built from a token with no white space at its ends yields
      that token back. */
  lemma BearerTokenOfHeader(t: string)
    requires Trimmed(t)
    ensures BearerToken(Some(Prefix + t)) == t
  {
    var h := Prefix + t;
    assert h[..|Prefix|] == Prefix;
    assert h[|Prefix|..] == t;
    TrimOfTrimmed(t);
  }

  /** The session check of `authenticate`: the first failing guard decides
      the refusal; otherwise the request is accepted and `req.user` is the
      verified payload with `tv` replaced by the account's current version. */
  function Authenticate(authorization: Option<string>, secret: string,
                        verify: (string, string) -> Option<Payload>,
                        users: map<Id, UserRecord>): (o: AuthOutcome)
    ensures o == Reject(MissingToken) <==> BearerToken(authorization) == ""
    ensures o == Reject(MissingSecret) <==> BearerToken(authorization) != "" && secret == ""
    ensures o == Reject(InvalidToken) <==>
              BearerToken(authorization) != "" && secret != ""
              && verify(BearerToken(authorization), secret).None?
    ensures o.Accept? ==>
              && BearerToken(authorization) != "" && secret != ""
              && var p := verify(BearerToken(authorization), secret);
              && p.Some? && p.value.sub in users
              && VersionNumber(p.value.tv) == VersionNumber(users[p.value.sub].tokenVersion)
              && o.user == p.value.(tv := Some(VersionNumber(users[p.value.sub].tokenVersion)))
  {
    var token := BearerToken(authorization);
    if token == "" then Reject(MissingToken)
    else if secret == "" then Reject(MissingSecret)
    else match verify(token, secret)
      case None => Reject(InvalidToken)
      case Some(payload) =>
        if payload.sub !in users then Reject(UnknownUser)
        else
          var tokenTv := VersionNumber(payload.tv);
          var userTv := VersionNumber(users[payload.sub].tokenVersion);
          if tokenTv != userTv then Reject(StaleToken)
          else Accept(payload.(tv := Some(userTv)))
  }

  /** A token that verifies for a known account passes exactly when its
      version, read as a number, equals the account's; any difference is a
      stale-token refusal. */
  lemma {:induction false} AcceptIffVersionsMatch(authorization: Option<string>, secret: string,
                                                  verify: (string, string) -> Option<Payload>,
                                                  users: map<Id, UserRecord>, p: Payload)
    requires BearerToken(authorization) != "" && secret != ""
    requires verify(BearerToken(authorization), secret) == Some(p)
    requires p.sub in users
    ensures Authenticate(authorization, secret, verify, users).Accept?
            <==> VersionNumber(p.tv) == VersionNumber(users[p.sub].tokenVersion)
    ensures !Authenticate(authorization, secret, verify, users).Accept?
            ==> Authenticate(authorization, secret, verify, users) == Reject(StaleToken)
  {
  }

  /** A verified token whose subject is no longer in the user table is
      refused with 401, whatever its version. */
  lemma {:induction false} UnknownSubjectRefused(authorization: Option<string>, secret: string,
                                                 verify: (string, string) -> Option<Payload>,
                                                 users: map<Id, UserRecord>, p: Payload)
    requires BearerToken(authorization) != "" && secret != ""
    requires verify(BearerToken(authorization), secret) == Some(p)
    requires p.sub !in users
    ensures Authenticate(authorization, secret, verify, users) == Reject(UnknownUser)
    ensures Status(Authenticate(authorization, secret, verify, users).reason) == 401
  {
  }

  /** `requireRole(roles)`: a request goes on exactly when it carries a user
      whose role is listed; the default empty list admits nobody. A refused
      request is answered with 403. */
  function RequireRole(roles: seq<Role>, user: Option<Payload>): (admitted: bool)
    ensures admitted ==> user.Some? && user.value.role in roles
    ensures user.Some? && user.value.role in roles ==> admitted
    ensures roles == [] ==> !admitted
  {
    user.Some? && user.value.role in roles
  }

  /** The user `authenticate` stores on the request, if it accepted it. */
  function RequestUser(o: AuthOutcome): Option<Payload> {
    if o.Accept? then Some(o.user) else None
  }

  /** Behind `authenticate` and `requireRole(["admin"])`, a request goes on
      exactly when its token passes and the role claim in it is admin. */
  lemma AdminGate(authorization: Option<string>, secret: string,
                  verify: (string, string) -> Option<Payload>, users: map<Id, UserRecord>)
    ensures var o := Authenticate(authorization, secret, verify, users);
            RequireRole([AdminRole], RequestUser(o)) <==> o.Accept? && o.user.role == AdminRole
  {
  }
}
