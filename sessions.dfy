/** How the pieces fit together over a session's life: a token issued at
    login, registration or profile update is accepted by `authenticate`
    until the account's version moves, and a password change moves it. */
module Sessions {
  import opened Common
  import opened Text
  import opened Models
  import opened Jwt
  import opened AuthMiddleware
  import UserRoutes
  import Users
  import AuthRoutes

  /** The token the server hands out, sent back as `Bearer <token>`, passes
      `authenticate` as long as its version still equals the account's; the
      request then speaks for exactly the claims that were signed. */
  lemma {:induction false} IssuedTokenIsAccepted(jwt: Codec, secret: string, p: Payload,
                                                 users: map<Id, UserRecord>)
    requires Sound(jwt) && secret != ""
    requires p.sub in users && p.tv == Some(VersionNumber(users[p.sub].tokenVersion))
    ensures Authenticate(Some(Prefix + jwt.sign(p, secret)), secret, jwt.verify, users) == Accept(p)
  {
    var token := jwt.sign(p, secret);
    assert jwt.verify(token, secret) == Some(p) && token != [] && Trimmed(token);
    BearerTokenOfHeader(token);
  }

  /** After a password change of account `sub`, every token whose version is
      at most the old one (all tokens issued for that account before the
      change) is refused as stale. */
  lemma {:induction false} PasswordChangeRevokesOlderTokens(
    authorization: Option<string>, secret: string, verify: (string, string) -> Option<Payload>,
    users: map<Id, UserRecord>, sub: Id, b: UserRoutes.ProfileBody, newHash: string, p: Payload)
    requires sub in users && UserRoutes.FieldTruthy(b.newPassword)
    requires BearerToken(authorization) != "" && secret != ""
    requires verify(BearerToken(authorization), secret) == Some(p)
    requires p.sub == sub && VersionNumber(p.tv) <= VersionNumber(users[sub].tokenVersion)
    ensures var after := users[sub := UserRoutes.Updated(users[sub], b, newHash)];
            Authenticate(authorization, secret, verify, after) == Reject(StaleToken)
  {
    var after := users[sub := UserRoutes.Updated(users[sub], b, newHash)];
    assert VersionNumber(after[sub].tokenVersion) == VersionNumber(users[sub].tokenVersion) + 1;
    AcceptIffVersionsMatch(authorization, secret, verify, after, p);
  }

  /** A profile update of one account leaves every other account's requests
      exactly as they were. */
  lemma {:induction false} OtherSessionsUnaffected(
    authorization: Option<string>, secret: string, verify: (string, string) -> Option<Payload>,
    users: map<Id, UserRecord>, sub: Id, rec: UserRecord)
    requires sub in users
    requires var p := verify(BearerToken(authorization), secret); p.Some? ==> p.value.sub != sub
    ensures Authenticate(authorization, secret, verify, users[sub := rec])
            == Authenticate(authorization, secret, verify, users)
  {
    var p := verify(BearerToken(authorization), secret);
    if p.Some? {
      var after := users[sub := rec];
      assert (p.value.sub in after) == (p.value.sub in users);
      if p.value.sub in users {
        assert after[p.value.sub] == users[p.value.sub];
      }
    }
  }

  /** A name-only update keeps the version, so every request is answered
      exactly as before: the tokens already issued for the account stay
      valid, and `req.user` is unchanged. */
  lemma {:induction false} NameChangeKeepsSessions(
    authorization: Option<string>, secret: string, verify: (string, string) -> Option<Payload>,
    users: map<Id, UserRecord>, sub: Id, b: UserRoutes.ProfileBody, newHash: string)
    requires sub in users && !UserRoutes.FieldTruthy(b.newPassword)
    ensures var after := users[sub := UserRoutes.Updated(users[sub], b, newHash)];
            Authenticate(authorization, secret, verify, after)
            == Authenticate(authorization, secret, verify, users)
  {
    var after := users[sub := UserRoutes.Updated(users[sub], b, newHash)];
    assert after.Keys == users.Keys;
    assert forall id :: id in users ==> after[id].tokenVersion == users[id].tokenVersion;
  }

  /** The register-and-log-in test: a fresh account registered with a
      strong password can log in with it, and the login token passes
      `authenticate` for that account. `hash` stands for what bcrypt made of
      the password, which `compare` accepts. */
  method RegisterThenLogIn(jwt: Codec, isEmail: string -> bool,
                           compare: (string, string) -> bool, hash: string, secret: string)
    returns (registered: bool, loggedIn: bool, profileEmail: Option<string>)
    requires Sound(jwt) && secret != ""
    requires isEmail("t1@e.com") && compare("StrongPass1", hash)
    ensures registered && loggedIn && profileEmail == Some("t1@e.com")
  {
    var table := new Users.UserTable();
    var email := "t1@e.com";
    AuthRoutes.StrongPassOnePasses();
    assert Trimmed("Tester");
    TrimOfTrimmed("Tester");
    var body := AuthRoutes.RegisterBody(Some("Tester"), Some(email), Some("StrongPass1"));
    assert AuthRoutes.RegisterRulesHold(body, isEmail);
    assert !table.EmailTaken(email);
    assert UserSchemaValid(UserRecord(Trim("Tester"), email, hash, UserRole, Some(0)));
    var reg := AuthRoutes.Register(table, body, isEmail, hash, secret, jwt);
    registered := reg.Ok?;
    assert registered;
    var id := reg.value.payload.sub;
    var rec := UserRecord("Tester", email, hash, UserRole, Some(0));
    assert table.users == map[id := rec];
    var loginBody := AuthRoutes.LoginBody(Some(email), Some("StrongPass1"));
    assert AuthRoutes.LoginRulesHold(loginBody, isEmail);
    var login := AuthRoutes.Login(table, loginBody, isEmail, compare, secret, jwt);
    assert id in table.users && table.users[id].email == email && compare("StrongPass1", table.users[id].password);
    loggedIn := login.Ok?;
    assert loggedIn && login.value.payload.sub == id;
    var session := login.value;
    IssuedTokenIsAccepted(jwt, secret, session.payload, table.users);
    var o := Authenticate(Some(Prefix + session.token), secret, jwt.verify, table.users);
    assert o == Accept(session.payload);
    profileEmail := Some(table.users[o.user.sub].email);
  }

  /** The PUT /profile route as mounted: `authenticate` first, then the
      handler for the account the token names. `None` is a refusal by
      `authenticate`, which touches nothing. Since `authenticate` already
      answers 500 when the secret is missing, the handler's own 500 (a save
      followed by a failed signing) cannot happen on this route. */
  method AuthenticatedProfileUpdate(table: Users.UserTable, authorization: Option<string>,
                                    b: UserRoutes.ProfileBody, compare: (string, string) -> bool,
                                    newHash: string, secret: string, jwt: Codec)
    returns (gate: AuthOutcome, res: Option<Result<Session, UserRoutes.ProfileError>>)
    requires table.Valid()
    modifies table
    ensures table.Valid()
    ensures gate == Authenticate(authorization, secret, jwt.verify, old(table.users))
    ensures res.None? <==> gate.Reject?
    ensures gate.Reject? ==> table.users == old(table.users)
    ensures res.Some? ==> res.value != Err(UserRoutes.ServerError)
    ensures res.Some? && res.value.Err? ==> table.users == old(table.users)
    ensures gate.Accept? ==>
              var sub := gate.user.sub;
              UserRoutes.ProfileRulesHold(b) && !UserRoutes.NothingRequested(b) && sub in old(table.users)
              && (UserRoutes.FieldTruthy(b.newPassword) ==>
                    UserRoutes.FieldTruthy(b.currentPassword)
                    && compare(b.currentPassword.s, old(table.users)[sub].password)) ==>
                res.Some? && res.value.Ok?
    ensures res.Some? && res.value.Ok? ==>
              var sub := gate.user.sub;
              sub in old(table.users)
              && table.users == old(table.users)[sub := UserRoutes.Updated(old(table.users)[sub], b, newHash)]
  {
    gate := Authenticate(authorization, secret, jwt.verify, table.users);
    if gate.Reject? {
      return gate, None;
    }
    var r := UserRoutes.UpdateProfile(table, gate.user.sub, b, compare, newHash, secret, jwt);
    res := Some(r);
  }

  /** A password change through PUT /profile, followed by two requests: one
      with the token it hands back, one with a token issued before it. The
      first passes `authenticate`, the second is refused as stale. */
  method ChangePasswordThenAuthenticate(table: Users.UserTable, sub: Id, b: UserRoutes.ProfileBody,
                                        compare: (string, string) -> bool, newHash: string,
                                        secret: string, jwt: Codec, oldHeader: Option<string>)
    returns (res: Result<Session, UserRoutes.ProfileError>, current: AuthOutcome, stale: AuthOutcome)
    requires table.Valid() && Sound(jwt) && secret != ""
    requires UserRoutes.FieldTruthy(b.newPassword)
    requires sub in table.users && BearerToken(oldHeader) != ""
    requires var p := jwt.verify(BearerToken(oldHeader), secret);
             p.Some? && p.value.sub == sub
             && VersionNumber(p.value.tv) <= VersionNumber(table.users[sub].tokenVersion)
    modifies table
    ensures (&& UserRoutes.ProfileRulesHold(b) && UserRoutes.FieldTruthy(b.currentPassword)
             && compare(b.currentPassword.s, old(table.users)[sub].password)) ==> res.Ok?
    ensures res.Ok? ==> current == Accept(res.value.payload) && stale == Reject(StaleToken)
    ensures res.Err? && res != Err(UserRoutes.ServerError) ==> table.users == old(table.users)
  {
    ghost var before := table.users;
    res := UserRoutes.UpdateProfile(table, sub, b, compare, newHash, secret, jwt);
    if res.Ok? {
      IssuedTokenIsAccepted(jwt, secret, res.value.payload, table.users);
      PasswordChangeRevokesOlderTokens(oldHeader, secret, jwt.verify, before, sub, b, newHash,
                                       jwt.verify(BearerToken(oldHeader), secret).value);
    }
    current := Authenticate(Some(Prefix + (if res.Ok? then res.value.token else "")), secret, jwt.verify, table.users);
    stale := Authenticate(oldHeader, secret, jwt.verify, table.users);
  }
}
