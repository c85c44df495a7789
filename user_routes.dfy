/** PUT /api/profile: changing one's name and password. A password change
    bumps the account's token version, which retires every older token. */
module UserRoutes {
  import opened Common
  import opened Text
  import opened Models
  import opened Jwt
  import Users
  import AuthRoutes

  /** A field of a JSON body: missing, a string, or some other JSON value
      (whose JavaScript truthiness is kept). */
  datatype Field = Missing | Str(s: string) | Other(truthy: bool)

  predicate FieldTruthy(f: Field) {
    match f
    case Missing => false
    case Str(s) => s != ""
    case Other(t) => t
  }

  datatype ProfileBody = ProfileBody(name: Field, currentPassword: Field, newPassword: Field,
                                     confirmPassword: Field, confirmNewPassword: Field)

  datatype ProfileError =
    | ValidationFailed
    | NothingToUpdate
    | UserNotFound
    | CurrentPasswordRequired
    | WrongCurrentPassword
    | ServerError

  function ErrorStatus(e: ProfileError): int {
    match e
    case ValidationFailed => 400
    case NothingToUpdate => 400
    case UserNotFound => 404
    case CurrentPasswordRequired => 400
    case WrongCurrentPassword => 401
    case ServerError => 500
  }

  /** `updateProfileRules`. Every field is optional (missing passes; `null`
      does not). A given name is a string of 2 to 80 characters, a given
      current password a string of at least 8, a given new password a strong
      string; `confirmPassword` must equal the new password, but only when it
      is given and the new password is truthy. */
  predicate ProfileRulesHold(b: ProfileBody) {
    && (b.name.Missing? || (b.name.Str? && 2 <= |b.name.s| <= 80))
    && (b.currentPassword.Missing? || (b.currentPassword.Str? && |b.currentPassword.s| >= 8))
    && (b.newPassword.Missing? || (b.newPassword.Str? && AuthRoutes.StrongPassword(b.newPassword.s)))
    && (b.confirmPassword.Missing? || !FieldTruthy(b.newPassword) || b.confirmPassword == b.newPassword)
  }

  /** The body asks for nothing: no name and no truthy password field. The
      confirmation field looked at here is `confirmNewPassword`. */
  predicate NothingRequested(b: ProfileBody) {
    b.name.Missing? && !FieldTruthy(b.newPassword) && !FieldTruthy(b.confirmNewPassword)
    && !FieldTruthy(b.currentPassword)
  }

  /** A name is taken over when it is a string that is still 2 characters
      long once trimmed; it is stored trimmed. */
  predicate NameAccepted(b: ProfileBody) {
    b.name.Str? && |Trim(b.name.s)| >= 2
  }

  /** The record `user.save()` writes: the new name if accepted, and on a
      password change the new hash and the version one above the old one
      (a missing version counts as 0). */
  function Updated(u: UserRecord, b: ProfileBody, newHash: string): (r: UserRecord)
    ensures r.email == u.email && r.role == u.role
    ensures r.name == (if NameAccepted(b) then Trim(b.name.s) else u.name)
    ensures FieldTruthy(b.newPassword) ==>
              r.password == newHash && r.tokenVersion == Some(VersionNumber(u.tokenVersion) + 1)
    ensures !FieldTruthy(b.newPassword) ==> r.password == u.password && r.tokenVersion == u.tokenVersion
  {
    var named := if NameAccepted(b) then u.(name := Trim(b.name.s)) else u;
    if FieldTruthy(b.newPassword) then
      named.(password := newHash, tokenVersion := Some(VersionNumber(u.tokenVersion) + 1))
    else named
  }

  /** What a valid body does to a stored name: it stays within the schema. */
  lemma {:induction false} UpdatedKeepsSchema(u: UserRecord, b: ProfileBody, newHash: string)
    requires UserSchemaValid(u) && ProfileRulesHold(b)
    ensures UserSchemaValid(Updated(u, b, newHash))
  {
    if NameAccepted(b) {
      TrimIdempotent(b.name.s);
      assert Trimmed(Trim(b.name.s));
    }
  }

  /** A password change always moves the version strictly upward. */
  lemma PasswordChangeBumpsVersion(u: UserRecord, b: ProfileBody, newHash: string)
    requires FieldTruthy(b.newPassword)
    ensures VersionNumber(Updated(u, b, newHash).tokenVersion) > VersionNumber(u.tokenVersion)
  {
  }

  /** The PUT /profile handler for the account `sub` the token names.
      `compare` is bcrypt's check, `newHash` what bcrypt returns for the new
      password. Each refusal leaves the users untouched; otherwise the
      account becomes `Updated(...)` and the answer carries a fresh token
      whose version is the saved one. A missing secret answers 500 after the
      save. */
  method UpdateProfile(table: Users.UserTable, sub: Id, b: ProfileBody,
                       compare: (string, string) -> bool, newHash: string,
                       secret: string, jwt: Codec)
    returns (res: Result<Session, ProfileError>)
    requires table.Valid()
    modifies table
    ensures table.Valid()
    ensures !ProfileRulesHold(b) ==> res == Err(ValidationFailed)
    ensures ProfileRulesHold(b) && NothingRequested(b) ==> res == Err(NothingToUpdate)
    ensures ProfileRulesHold(b) && !NothingRequested(b) && sub !in old(table.users) ==>
              res == Err(UserNotFound)
    ensures ProfileRulesHold(b) && !NothingRequested(b) && sub in old(table.users)
            && FieldTruthy(b.newPassword) && !FieldTruthy(b.currentPassword) ==>
              res == Err(CurrentPasswordRequired)
    ensures ProfileRulesHold(b) && !NothingRequested(b) && sub in old(table.users)
            && FieldTruthy(b.newPassword) && FieldTruthy(b.currentPassword) ==>
              (res == Err(WrongCurrentPassword) <==>
               !compare(b.currentPassword.s, old(table.users)[sub].password))
    ensures res.Err? && res != Err(ServerError) ==> table.users == old(table.users)
    ensures res.Ok? || res == Err(ServerError) ==>
              && ProfileRulesHold(b) && !NothingRequested(b) && sub in old(table.users)
              && (FieldTruthy(b.newPassword) ==> compare(b.currentPassword.s, old(table.users)[sub].password))
              && table.users == old(table.users)[sub := Updated(old(table.users)[sub], b, newHash)]
    ensures res == Err(ServerError) ==> secret == ""
    ensures ProfileRulesHold(b) && !NothingRequested(b) && sub in old(table.users)
            && (FieldTruthy(b.newPassword) ==>
                  FieldTruthy(b.currentPassword)
                  && compare(b.currentPassword.s, old(table.users)[sub].password)) ==>
              (res.Ok? <==> secret != "") && (res.Err? ==> res == Err(ServerError))
    ensures res.Ok? ==>
              var u := table.users[sub];
              && res.value.payload == Payload(sub, u.role, u.email, Some(VersionNumber(u.tokenVersion)))
              && res.value.token == jwt.sign(res.value.payload, secret)
  {
    if !ProfileRulesHold(b) {
      return Err(ValidationFailed);
    }
    if NothingRequested(b) {
      return Err(NothingToUpdate);
    }
    if sub !in table.users {
      return Err(UserNotFound);
    }
    var u := table.users[sub];
    if FieldTruthy(b.newPassword) {
      if !FieldTruthy(b.currentPassword) {
        return Err(CurrentPasswordRequired);
      }
      if !compare(b.currentPassword.s, u.password) {
        return Err(WrongCurrentPassword);
      }
    }
    var rec := Updated(u, b, newHash);
    UpdatedKeepsSchema(u, b, newHash);
    var ok := table.Save(sub, rec);
    assert ok;
    var issued := SignJwt(jwt, Payload(sub, rec.role, rec.email, Some(VersionNumber(rec.tokenVersion))), secret);
    if issued.None? {
      return Err(ServerError);
    }
    res := Ok(issued.value);
  }
}
