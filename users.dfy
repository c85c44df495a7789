/** The users collection: documents keyed by id, with the unique index on
    `email` and the schema checks `User.create` and `user.save()` run. */
module Users {
  import opened Common
  import opened Text
  import opened Models

  /** Why a create or save was refused by Mongoose or MongoDB. */
  datatype WriteError = SchemaInvalid | DuplicateEmail

  class UserTable {
    var users: map<Id, UserRecord>
    var nextId: Id

    ghost predicate Valid()
      reads this
    {
      && (forall id :: id in users ==> id < nextId && UserSchemaValid(users[id]))
      && (forall a, b :: a in users && b in users && a != b ==> users[a].email != users[b].email)
    }

    constructor ()
      ensures Valid() && users == map[]
    {
      users := map[];
      nextId := 0;
    }

    /** Some stored user has this email (`User.findOne({ email })` finds one). */
    predicate EmailTaken(email: string)
      reads this
    {
      exists id :: id in users && users[id].email == email
    }

    /** Some user other than `self` has this email. */
    predicate EmailTakenByOther(self: Id, email: string)
      reads this
    {
      exists id :: id in users && id != self && users[id].email == email
    }

    /** `User.findOne({ email })`: the owner of an email, which the unique
        index makes the only one. */
    method FindByEmail(email: string) returns (r: Option<Id>)
      requires Valid()
      ensures r.Some? ==> r.value in users && users[r.value].email == email
      ensures r.None? <==> !EmailTaken(email)
    {
      if EmailTaken(email) {
        var id :| id in users && users[id].email == email;
        r := Some(id);
      } else {
        r := None;
      }
    }

    /** `User.create({ name, email, password })`: the name setter trims, the
        role and token version take their defaults ("user", 0), then the
        schema and the unique email index are checked. */
    method Create(name: string, email: string, password: string)
      returns (r: Result<Id, WriteError>)
      requires Valid()
      modifies this
      ensures Valid()
      ensures var rec := UserRecord(Trim(name), email, password, UserRole, Some(0));
              && (!UserSchemaValid(rec) ==> r == Err(SchemaInvalid) && users == old(users))
              && (UserSchemaValid(rec) && old(EmailTaken(email)) ==> r == Err(DuplicateEmail) && users == old(users))
              && (r.Ok? <==> UserSchemaValid(rec) && !old(EmailTaken(email)))
              && (r.Ok? ==> r.value !in old(users) && users == old(users)[r.value := rec])
    {
      var rec := UserRecord(Trim(name), email, password, UserRole, Some(0));
      if !UserSchemaValid(rec) {
        return Err(SchemaInvalid);
      }
      if EmailTaken(email) {
        return Err(DuplicateEmail);
      }
      var id := nextId;
      users := users[id := rec];
      nextId := nextId + 1;
      r := Ok(id);
    }

    /** `user.save()` on a document fetched by id: the schema and the unique
        email index are checked before the write. */
    method Save(id: Id, rec: UserRecord) returns (ok: bool)
      requires Valid() && id in users
      modifies this
      ensures Valid()
      ensures ok <==> UserSchemaValid(rec) && !old(EmailTakenByOther(id, rec.email))
      ensures ok ==> users == old(users)[id := rec]
      ensures !ok ==> users == old(users)
    {
      if !UserSchemaValid(rec) || EmailTakenByOther(id, rec.email) {
        return false;
      }
      users := users[id := rec];
      ok := true;
    }
  }
}
