/** POST /api/register (src/app/api/register/route.js): a required-field
    check, a duplicate-email lookup, then an insert into the `User`
    collection with the password hashed and email and role lower-cased. */
module RegisterRoute {
  import opened Wrappers
  import opened Strings
  import opened UserSchema

  /** The request body; `None` is a missing or `null` field. */
  datatype RegisterInput = RegisterInput(
    name: Option<string>,
    email: Option<string>,
    phone: Option<string>,
    password: Option<string>,
    role: Option<string>)

  /** `!name || !email || !phone || !password || !role`. */
  function AnyMissing(b: RegisterInput): (r: bool)
    ensures b.name.Some? && b.email.Some? && b.phone.Some? && b.password.Some? && b.role.Some? ==>
      (r <==> !HasRequired(User(b.name.value, b.email.value, b.phone.value, b.password.value, b.role.value)))
  {
    || b.name.None? || b.name.value == ""
    || b.email.None? || b.email.value == ""
    || b.phone.None? || b.phone.value == ""
    || b.password.None? || b.password.value == ""
    || b.role.None? || b.role.value == ""
  }

  /** The document the handler builds from a complete body. */
  function NewUser(b: RegisterInput): (u: User)
    requires !AnyMissing(b)
    ensures HasRequired(u)
    ensures u.password != b.password.value && IsLower(u.email) && IsLower(u.role)
  {
    ToLowerFixesLower(b.email.value);
    ToLowerFixesLower(b.role.value);
    User(b.name.value, ToLower(b.email.value), b.phone.value, Hash(b.password.value), ToLower(b.role.value))
  }

  /** `User.findOne({email})`: a stored document with exactly this email. */
  function EmailTaken(users: seq<User>, email: string): (r: bool)
    ensures r <==> email in (set u | u in users :: u.email)
  {
    exists i :: 0 <= i < |users| && users[i].email == email
  }

  /** Why the as-written handler answers 500 to a case variant of a taken
      email: the stored emails are lower-case, so none equals an email with
      an upper-case letter, yet the document to insert carries the
      lower-cased email, which the unique index finds. */
  lemma {:induction false} CaseVariantSlipsPastLookup(users: seq<User>, b: RegisterInput)
    requires forall i :: 0 <= i < |users| ==> IsLower(users[i].email)
    requires !AnyMissing(b) && !IsLower(b.email.value)
    requires EmailTaken(users, ToLower(b.email.value))
    ensures !EmailTaken(users, b.email.value)
    ensures Clashes(users, NewUser(b))
  {
    var i :| 0 <= i < |users| && users[i].email == ToLower(b.email.value);
    assert users[i].email == NewUser(b).email;
  }

  datatype Body = ErrorBody(error: string) | MessageBody(message: string)
  datatype Reply = Reply(code: int, body: Body)

  /** The `User` collection. Every document in it was inserted by this
      handler, so its email and role are lower-case. */
  class UserTable {
    var users: seq<User>

    ghost predicate Valid()
      reads this
    {
      && TableValid(users)
      && forall i :: 0 <= i < |users| ==> IsLower(users[i].email) && IsLower(users[i].role)
    }

    constructor ()
      ensures Valid() && users == []
    {
      users := [];
    }

    /** The handler as written. */
    method Register(b: RegisterInput) returns (r: Reply)
      requires Valid()
      modifies this
      ensures Valid()
      ensures AnyMissing(b) ==> r == Reply(400, ErrorBody("All fields are required."))
      ensures !AnyMissing(b) && EmailTaken(old(users), b.email.value) ==>
        r == Reply(400, ErrorBody("Email already in use."))
      ensures !AnyMissing(b) && !EmailTaken(old(users), b.email.value) ==>
        && (Clashes(old(users), NewUser(b)) ==> r == Reply(500, ErrorBody("Internal Server Error")))
        && (!Clashes(old(users), NewUser(b)) ==>
              r == Reply(201, MessageBody("User registered successfully.")) && users == old(users) + [NewUser(b)])
      ensures r.code != 201 ==> users == old(users)
      // The lookup compares the raw email, storage the lower-cased one: an
      // email that differs from a stored one only in letter case passes the
      // lookup and then fails the unique index.
      ensures !AnyMissing(b) && !IsLower(b.email.value) && EmailTaken(old(users), ToLower(b.email.value)) ==>
        r.code == 500
    {
      if AnyMissing(b) {
        return Reply(400, ErrorBody("All fields are required."));
      }
      if EmailTaken(users, b.email.value) {
        return Reply(400, ErrorBody("Email already in use."));
      }
      var u := NewUser(b);
      InsertKeepsTableValid(users, u);
      if Clashes(users, u) {
        return Reply(500, ErrorBody("Internal Server Error"));
      }
      users := users + [u];
      r := Reply(201, MessageBody("User registered successfully."));
    }

    /** The handler with the lookup on the email as it will be stored, so a
        taken email is always the 400 the lookup is there to give. */
    method RegisterNormalized(b: RegisterInput) returns (r: Reply)
      requires Valid()
      modifies this
      ensures Valid()
      ensures AnyMissing(b) ==> r == Reply(400, ErrorBody("All fields are required."))
      ensures !AnyMissing(b) ==>
        && (EmailTaken(old(users), ToLower(b.email.value)) ==> r == Reply(400, ErrorBody("Email already in use.")))
        && (r.code == 500 <==> !EmailTaken(old(users), ToLower(b.email.value)) && Clashes(old(users), NewUser(b)))
        && (r.code == 201 <==> !Clashes(old(users), NewUser(b)))
        && (r.code == 201 ==> users == old(users) + [NewUser(b)])
      ensures r.code != 201 ==> users == old(users)
    {
      if AnyMissing(b) {
        return Reply(400, ErrorBody("All fields are required."));
      }
      if EmailTaken(users, ToLower(b.email.value)) {
        return Reply(400, ErrorBody("Email already in use."));
      }
      var u := NewUser(b);
      InsertKeepsTableValid(users, u);
      if Clashes(users, u) {
        return Reply(500, ErrorBody("Internal Server Error"));
      }
      users := users + [u];
      r := Reply(201, MessageBody("User registered successfully."));
    }
  }
}
