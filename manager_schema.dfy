/** The `Manager` document (models/manager.js): setters, validators, the
    pre-save hook that hashes a modified password, and `comparePassword`. */
module ManagerSchema {
  import opened Wrappers
  import opened Strings

  /** The validators, on the values the setters produced: `name` 3 to 50
      UTF-16 code units, `email` and `phone` matching their patterns,
      `password` at least 6 code units, `role` in the enum `['manager']`. */
  predicate ValidManager(name: string, email: string, phone: string, password: string, role: string) {
    && 3 <= JsLength(name) <= 50
    && MatchesEmail(email)
    && MatchesPhone(phone)
    && JsLength(password) >= 6
    && role == "manager"
  }

  /** `bcrypt.compare(candidate, stored)` against a stored digest. */
  predicate PasswordMatches(candidate: string, stored: string) {
    Hash(candidate) == stored
  }

  /** After the hook has hashed `p`, exactly `p` matches. */
  lemma HashedPasswordMatches(p: string, q: string)
    ensures PasswordMatches(q, Hash(p)) <==> q == p
  {
    HashInjective(q, p);
  }

  /** A manager document in memory, with Mongoose's record of whether its
      password has been modified since it was last saved. */
  class ManagerDocument {
    var name: string
    var email: string
    var phone: string
    var password: string
    var role: string
    var passwordModified: bool
    /** The password last assigned, as the client sent it. */
    ghost var plain: string

    /** The stored password is the one last assigned: as given while it is
        modified, hashed once a save has run the hook. */
    ghost predicate Valid()
      reads this
    {
      && (passwordModified ==> password == plain)
      && (!passwordModified ==> password == Hash(plain))
    }

    /** `new Manager({...})`: the `trim` and `lowercase` setters run, `role`
        defaults to `manager`, and every supplied path counts as modified. */
    constructor (name: string, email: string, phone: string, password: string, role: Option<string>)
      ensures Valid() && plain == password
      ensures this.name == Trim(name)
      ensures this.email == Trim(ToLower(email))
      ensures this.phone == phone && this.password == password
      ensures this.role == Trim(role.GetOr("manager"))
      ensures passwordModified
    {
      this.name := Trim(name);
      this.email := Trim(ToLower(email));
      this.phone := phone;
      this.password := password;
      this.role := Trim(role.GetOr("manager"));
      passwordModified := true;
      plain := password;
    }

    /** `doc.password = p`: Mongoose marks the path modified only when the
        new value differs from the current one. */
    method SetPassword(p: string)
      requires Valid()
      modifies this
      ensures Valid()
      ensures p != old(password) ==> password == p && passwordModified && plain == p
      ensures p == old(password) ==> password == old(password) && passwordModified == old(passwordModified) && plain == old(plain)
      ensures name == old(name) && email == old(email) && phone == old(phone) && role == old(role)
    {
      if p != password {
        password := p;
        passwordModified := true;
        plain := p;
      }
    }

    /** `doc.save()`: the validators run first; then the pre-save hook
        replaces the password by its hash only when it was modified; the
        modified flag is cleared once the document is stored. */
    method Save() returns (saved: bool)
      requires Valid()
      modifies this
      ensures Valid() && plain == old(plain)
      ensures saved <==> ValidManager(old(name), old(email), old(phone), old(password), old(role))
      ensures !saved ==> password == old(password) && passwordModified == old(passwordModified)
      ensures saved ==> !passwordModified && password == Hash(plain)
      ensures saved && old(passwordModified) ==> password == Hash(old(password))
      ensures saved && !old(passwordModified) ==> password == old(password)
      ensures name == old(name) && email == old(email) && phone == old(phone) && role == old(role)
    {
      if !ValidManager(name, email, phone, password, role) {
        return false;
      }
      if passwordModified {
        password := Hash(password);
      }
      passwordModified := false;
      saved := true;
    }

    /** `doc.comparePassword(candidate)`: on a saved document, exactly the
        password last assigned matches. */
    function ComparePassword(candidate: string): (ok: bool)
      reads this
      requires Valid()
      ensures !passwordModified ==> (ok <==> candidate == plain)
    {
      HashInjective(candidate, plain);
      Hash(candidate) == password
    }
  }

  /** A manager created and saved with password `p` accepts `p` at login,
      and saving it again without touching the password keeps it so. */
  method CreateSaveTwice(name: string, email: string, phone: string, p: string) returns (m: ManagerDocument, ok: bool)
    ensures m.Valid()
    ensures ok ==> m.ComparePassword(p) && !m.passwordModified
  {
    m := new ManagerDocument(name, email, phone, p, None);
    var first := m.Save();
    var second := m.Save();
    ok := first && second;
  }

  /** Assigning a saved manager's stored password back to it changes
      nothing: the next save does not hash it again, and `p` still matches. */
  method ReassignStoredPassword(name: string, email: string, phone: string, p: string) returns (m: ManagerDocument, ok: bool)
    ensures m.Valid()
    ensures ok ==> m.ComparePassword(p) && !m.passwordModified
  {
    m := new ManagerDocument(name, email, phone, p, None);
    var first := m.Save();
    if !first {
      return m, false;
    }
    m.SetPassword(m.password);
    var second := m.Save();
    ok := second;
  }
}
