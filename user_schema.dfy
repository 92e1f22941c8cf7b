/** The `User` document (models/user.js): five required strings, with
    unique indexes on `email` and `phone`; `password` and `role` are left
    out of default reads. */
module UserSchema {

  datatype User = User(name: string, email: string, phone: string, password: string, role: string)

  /** `required: true` on a string path rejects a missing or empty value. */
  predicate HasRequired(u: User) {
    u.name != "" && u.email != "" && u.phone != "" && u.password != "" && u.role != ""
  }

  predicate UniqueEmails(users: seq<User>) {
    forall i, j :: 0 <= i < j < |users| ==> users[i].email != users[j].email
  }

  predicate UniquePhones(users: seq<User>) {
    forall i, j :: 0 <= i < j < |users| ==> users[i].phone != users[j].phone
  }

  /** What the collection guarantees of its documents. */
  predicate TableValid(users: seq<User>) {
    && (forall i :: 0 <= i < |users| ==> HasRequired(users[i]))
    && UniqueEmails(users)
    && UniquePhones(users)
  }

  /** The unique indexes reject a document whose email or phone is taken. */
  function Clashes(users: seq<User>, u: User): (r: bool)
    ensures r <==> u.email in (set v | v in users :: v.email) || u.phone in (set v | v in users :: v.phone)
  {
    exists i :: 0 <= i < |users| && (users[i].email == u.email || users[i].phone == u.phone)
  }

  /** Inserting a complete document that clashes with no index keeps the
      collection valid, and only such an insert does. */
  lemma {:induction false} InsertKeepsTableValid(users: seq<User>, u: User)
    requires TableValid(users)
    ensures TableValid(users + [u]) <==> HasRequired(u) && !Clashes(users, u)
  {
    var t := users + [u];
    if TableValid(t) {
      assert HasRequired(t[|users|]);
      forall i | 0 <= i < |users| ensures users[i].email != u.email && users[i].phone != u.phone {
        assert t[i] == users[i] && t[|users|] == u;
      }
    }
    if HasRequired(u) && !Clashes(users, u) {
      forall i, j | 0 <= i < j < |t| ensures t[i].email != t[j].email && t[i].phone != t[j].phone {
        if j == |users| {
          assert t[i] == users[i];
        } else {
          assert t[i] == users[i] && t[j] == users[j];
        }
      }
    }
  }

  /** A document as a default query returns it (`select: false` on
      `password` and `role`). */
  datatype UserView = UserView(name: string, email: string, phone: string)

  function DefaultView(u: User): UserView {
    UserView(u.name, u.email, u.phone)
  }

  /** A default read reveals nothing about the password or the role. */
  lemma DefaultViewHidesSecrets(u: User, password: string, role: string)
    ensures DefaultView(u.(password := password, role := role)) == DefaultView(u)
  {
  }
}
