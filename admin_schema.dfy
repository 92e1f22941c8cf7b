/** The `Admin` document (models/admin.js): setters and validators only;
    there is no hook, so the password is stored as given, and `role` is any
    string of 3 to 50 UTF-16 code units. */
module AdminSchema {
  import opened Wrappers
  import opened Strings

  datatype Admin = Admin(name: string, email: string, phone: string, password: string, role: string)

  predicate ValidAdmin(a: Admin) {
    && 3 <= JsLength(a.name) <= 50
    && MatchesEmail(a.email)
    && MatchesPhone(a.phone)
    && JsLength(a.password) >= 6
    && 3 <= JsLength(a.role) <= 50
  }

  /** Creating an admin document: the setters (`trim` on name and role,
      `lowercase` and `trim` on email) run, then the validators; `None` is
      the validation error. */
  function NewAdmin(name: string, email: string, phone: string, password: string, role: string): (r: Option<Admin>)
    ensures r.Some? <==>
      && 3 <= JsLength(Trim(name)) <= 50
      && MatchesEmail(Trim(ToLower(email)))
      && MatchesPhone(phone)
      && JsLength(password) >= 6
      && 3 <= JsLength(Trim(role)) <= 50
    ensures r.Some? ==> ValidAdmin(r.value)
    ensures r.Some? ==> r.value.password == password && r.value.phone == phone
    ensures r.Some? ==> Trimmed(r.value.name) && Trimmed(r.value.email) && IsLower(r.value.email)
    ensures r.Some? ==> r.value.role == Trim(role)
  {
    TrimLowerCommute(email);
    ToLowerFixesLower(Trim(email));
    var a := Admin(Trim(name), Trim(ToLower(email)), phone, password, Trim(role));
    if ValidAdmin(a) then Some(a) else None
  }

  /** The admin schema accepts any role name, e.g. "auditor", once it is
      trimmed and of the right length. */
  lemma AnyRoleAccepted(name: string, email: string, phone: string, password: string, role: string)
    requires 3 <= JsLength(Trim(name)) <= 50 && MatchesEmail(Trim(ToLower(email)))
    requires MatchesPhone(phone) && JsLength(password) >= 6
    requires Trimmed(role) && 3 <= JsLength(role) <= 50
    ensures NewAdmin(name, email, phone, password, role).Some?
    ensures NewAdmin(name, email, phone, password, role).value.role == role
  {
    TrimOfTrimmed(role);
  }
}
