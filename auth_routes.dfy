/** POST /api/auth/register and POST /api/auth/login. */
module AuthRoutes {
  import opened Common
  import opened Text
  import opened Models
  import opened Jwt
  import Users

  /** The password rule: at least 8 characters with an upper-case letter, a
      lower-case letter and a digit. */
  predicate StrongPassword(p: string) {
    |p| >= 8 && HasUpper(p) && HasLower(p) && HasDigit(p)
  }

  /** A request body; a field is `None` when it is missing or not a string. */
  datatype RegisterBody = RegisterBody(name: Option<string>, email: Option<string>, password: Option<string>)
  datatype LoginBody = LoginBody(email: Option<string>, password: Option<string>)

  datatype AuthError = ValidationFailed | EmailRegistered | InvalidCredentials | ServerError

  function ErrorStatus(e: AuthError): int {
    match e
    case ValidationFailed => 400
    case EmailRegistered => 409
    case InvalidCredentials => 401
    case ServerError => 500
  }

  /** The register rules: a name of at least 2 characters (not trimmed here),
      an email `isEmail` accepts, and a strong password. */
  predicate RegisterRulesHold(body: RegisterBody, isEmail: string -> bool) {
    && body.name.Some? && |body.name.value| >= 2
    && body.email.Some? && isEmail(body.email.value)
    && body.password.Some? && StrongPassword(body.password.value)
  }

  /** The login rules: an email and a password of at least 8 characters. */
  predicate LoginRulesHold(body: LoginBody, isEmail: string -> bool) {
    && body.email.Some? && isEmail(body.email.value)
    && body.password.Some? && |body.password.value| >= 8
  }

  /** The password the register test uses passes the rule. */
  lemma StrongPassOnePasses()
    ensures StrongPassword("StrongPass1")
  {
    var p := "StrongPass1";
    assert 'A' <= p[0] <= 'Z' && 'a' <= p[1] <= 'z' && IsDigitChar(p[10]);
  }

  /** POST /register. A validation failure answers 400 before any lookup; a
      taken email answers 409 and stores nothing; otherwise exactly one user
      is added, with version 0, and the token carries `tv: 0`.
      `passwordHash` is what bcrypt returned for the password. Should the
      schema refuse the trimmed name, or signing fail for want of a secret,
      the answer is 500 (in the latter case after the user was stored). */
  method Register(table: Users.UserTable, body: RegisterBody, isEmail: string -> bool,
                  passwordHash: string, secret: string, jwt: Codec)
    returns (res: Result<Session, AuthError>)
    requires table.Valid()
    modifies table
    ensures table.Valid()
    ensures res != Err(InvalidCredentials)
    ensures res == Err(ValidationFailed) <==> !RegisterRulesHold(body, isEmail)
    ensures res == Err(EmailRegistered) <==>
              RegisterRulesHold(body, isEmail) && old(table.EmailTaken(body.email.value))
    ensures res.Ok? ==>
              && RegisterRulesHold(body, isEmail) && !old(table.EmailTaken(body.email.value))
              && var id := res.value.payload.sub;
              && id !in old(table.users)
              && table.users == old(table.users)[id := UserRecord(Trim(body.name.value), body.email.value,
                                                                  passwordHash, UserRole, Some(0))]
              && res.value.payload == Payload(id, UserRole, body.email.value, Some(0))
              && res.value.token == jwt.sign(res.value.payload, secret)
    ensures res.Ok? <==>
              && RegisterRulesHold(body, isEmail) && !old(table.EmailTaken(body.email.value))
              && UserSchemaValid(UserRecord(Trim(body.name.value), body.email.value, passwordHash,
                                            UserRole, Some(0)))
              && secret != ""
    ensures res == Err(ServerError) ==> |table.users| <= |old(table.users)| + 1
    ensures var rec := UserRecord(Trim(body.name.GetOr("")), body.email.GetOr(""), passwordHash, UserRole, Some(0));
            RegisterRulesHold(body, isEmail) && !old(table.EmailTaken(body.email.value))
            && !UserSchemaValid(rec) ==>
              res == Err(ServerError) && table.users == old(table.users)
    ensures var rec := UserRecord(Trim(body.name.GetOr("")), body.email.GetOr(""), passwordHash, UserRole, Some(0));
            RegisterRulesHold(body, isEmail) && !old(table.EmailTaken(body.email.value))
            && UserSchemaValid(rec) && secret == "" ==>
              && res == Err(ServerError)
              && exists id :: id in table.users && id !in old(table.users)
                              && table.users == old(table.users)[id := rec]
    ensures res.Err? && res != Err(ServerError) ==> table.users == old(table.users)
  {
    if !RegisterRulesHold(body, isEmail) {
      return Err(ValidationFailed);
    }
    var name, email := body.name.value, body.email.value;
    var existing := table.FindByEmail(email);
    if existing.Some? {
      return Err(EmailRegistered);
    }
    var created := table.Create(name, email, passwordHash);
    if created.Err? {
      return Err(ServerError);
    }
    var id := created.value;
    var rec := table.users[id];
    var issued := SignJwt(jwt, Payload(id, rec.role, rec.email, Some(VersionNumber(rec.tokenVersion))), secret);
    if issued.None? {
      return Err(ServerError);
    }
    res := Ok(issued.value);
  }

  /** POST /login. A validation failure answers 400; an unknown email and a
      wrong password get the very same 401; a match gets a token carrying
      the account's current version (missing read as 0), or 500 when no
      secret is set and signing throws. */
  method Login(table: Users.UserTable, body: LoginBody, isEmail: string -> bool,
               compare: (string, string) -> bool, secret: string, jwt: Codec)
    returns (res: Result<Session, AuthError>)
    requires table.Valid()
    ensures !LoginRulesHold(body, isEmail) ==> res == Err(ValidationFailed)
    ensures LoginRulesHold(body, isEmail) && !table.EmailTaken(body.email.value) ==>
              res == Err(InvalidCredentials)
    ensures LoginRulesHold(body, isEmail) ==>
              forall id :: id in table.users && table.users[id].email == body.email.value
                           && !compare(body.password.value, table.users[id].password) ==>
                res == Err(InvalidCredentials)
    ensures res.Ok? ==>
              && LoginRulesHold(body, isEmail)
              && var id := res.value.payload.sub;
              && id in table.users
              && var u := table.users[id];
              && u.email == body.email.value && compare(body.password.value, u.password)
              && res.value.payload == Payload(id, u.role, u.email, Some(VersionNumber(u.tokenVersion)))
              && res.value.token == jwt.sign(res.value.payload, secret)
    ensures res.Ok? ==> secret != ""
    ensures LoginRulesHold(body, isEmail) && secret == "" ==>
              forall id :: id in table.users && table.users[id].email == body.email.value
                           && compare(body.password.value, table.users[id].password) ==>
                res == Err(ServerError)
    ensures LoginRulesHold(body, isEmail) && secret != "" ==>
              forall id :: id in table.users && table.users[id].email == body.email.value
                           && compare(body.password.value, table.users[id].password) ==>
                res.Ok? && res.value.payload.sub == id
  {
    if !LoginRulesHold(body, isEmail) {
      return Err(ValidationFailed);
    }
    var email, password := body.email.value, body.password.value;
    var found := table.FindByEmail(email);
    if found.None? {
      return Err(InvalidCredentials);
    }
    var id := found.value;
    var u := table.users[id];
    if !compare(password, u.password) {
      return Err(InvalidCredentials);
    }
    var issued := SignJwt(jwt, Payload(id, u.role, u.email, Some(VersionNumber(u.tokenVersion))), secret);
    if issued.None? {
      return Err(ServerError);
    }
    res := Ok(issued.value);
  }
}
