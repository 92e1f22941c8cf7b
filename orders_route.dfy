/** The `/orders` API (src/app/api/orders/route.js): five handlers over the
    `Order` collection, each a fixed chain of early returns (session, id,
    role, body, lookup, ownership) before it touches the store; plus the
    pure pieces they use: `checkRole`, the role-to-query mapping and the
    pagination arithmetic. */
module OrdersRoute {
  import opened Wrappers
  import opened Strings
  import opened OrderSchema

  /** A resolved session: the user's id, display name and role claim. */
  datatype Session = Session(id: string, name: string, role: string)

  /** The `message` strings of the handlers' JSON replies. */
  datatype Note =
    | Unauthorized
    | InvalidRole
    | InsufficientPermissions
    | MissingFields
    | InvalidId
    | OnlyUsersUpdate
    | NotFound
    | NotOwnerUpdate
    | OnlyManagers
    | InvalidStatus
    | OnlyUsersDelete
    | NotOwnerDelete
    | Deleted

  function NoteText(n: Note): string {
    match n
    case Unauthorized => "Unauthorized"
    case InvalidRole => "Invalid role"
    case InsufficientPermissions => "Forbidden: insufficient permissions"
    case MissingFields => "Missing fields"
    case InvalidId => "Invalid id"
    case OnlyUsersUpdate => "Forbidden: only users can update orders"
    case NotFound => "Not found"
    case NotOwnerUpdate => "Forbidden: cannot update others' orders"
    case OnlyManagers => "Forbidden: only managers can update order status"
    case InvalidStatus => "Invalid status"
    case OnlyUsersDelete => "Forbidden: only users can delete orders"
    case NotOwnerDelete => "Forbidden: cannot delete others' orders"
    case Deleted => "Deleted"
  }

  /** The exceptions the store throws on a write. */
  datatype Failure = ValidationFailed | DuplicateKey

  /** The leading words of the exception's `message`. */
  function FailureText(f: Failure): (t: string)
    ensures |t| > 0
  {
    match f
    case ValidationFailed => "Order validation failed"
    case DuplicateKey => "E11000 duplicate key error"
  }

  /** An HTTP response: status code and JSON body. `StoreError` is the body
      `{message: err.message || ...}` of a caught exception, which the
      handlers return with status 500. */
  datatype Body =
    | Message(message: Note)
    | Single(order: Order)
    | Listing(orders: seq<Order>, total: nat, page: int, limit: int, pages: nat)
    | StoreError(failure: Failure, fallback: string)
  datatype Reply = Reply(code: int, body: Body)

  /** The `message` field of a reply's JSON body, when it has one: a note,
      or the exception's message, which is never empty, so the handler's
      fallback text is never used. */
  function MessageField(b: Body): (m: Option<string>)
    ensures m.Some? <==> b.Message? || b.StoreError?
    ensures b.StoreError? ==> m.value == FailureText(b.failure)
  {
    match b
    case Message(n) => Some(NoteText(n))
    case StoreError(f, fallback) =>
      var t := FailureText(f);
      Some(if t != "" then t else fallback)
    case _ => None
  }

  // ---------------------------------------------------------------------
  // Roles and ids

  /** `checkRole(session, allowedRoles)`: a session whose lower-cased role is
      one of the allowed ones. */
  function CheckRole(session: Option<Session>, allowed: seq<string>): (ok: bool)
    ensures ok ==> session.Some?
  {
    session.Some? && ToLower(session.value.role) in allowed
  }

  /** The inline form the other handlers use: `role?.toLowerCase() === r`. */
  predicate HasRole(s: Session, role: string) {
    ToLower(s.role) == role
  }

  /** `checkRole` with one allowed role is the inline comparison, and like it
      ignores the case of the session's role. */
  lemma CheckRoleSingle(s: Session, role: string, other: string)
    requires ToLower(other) == ToLower(s.role)
    ensures CheckRole(Some(s), [role]) == HasRole(s, role)
    ensures CheckRole(Some(s.(role := other)), [role]) == HasRole(s, role)
  {
    assert ToLower(s.role) in [role] <==> ToLower(s.role) == role;
  }

  /** The three role names are already lower-case, so a session carrying
      one of them verbatim has that role. */
  lemma RoleNamesLowerCase()
    ensures ToLower("user") == "user"
    ensures ToLower("manager") == "manager"
    ensures ToLower("accountant") == "accountant"
  {
    ToLowerFixesLower("user");
    ToLowerFixesLower("manager");
    ToLowerFixesLower("accountant");
  }

  /** Ownership: `order.username === session.user.name?.trim()`. */
  function Owns(s: Session, o: Order): (r: bool)
    ensures r ==> Trimmed(o.username)
  {
    o.username == Trim(s.name)
  }

  predicate IsHexDigit(c: char) {
    '0' <= c <= '9' || 'a' <= c <= 'f' || 'A' <= c <= 'F'
  }

  /** `mongoose.Types.ObjectId.isValid(id)` on the `id` query parameter,
      which is `null` when absent: a 24-digit hexadecimal string. */
  function ValidObjectId(id: Option<string>): (v: bool)
    ensures v ==> id.Some? && JsLength(id.value) == 24
  {
    if id.Some? && |id.value| == 24 && forall k :: 0 <= k < 24 ==> IsHexDigit(id.value[k]) then
      JsLengthOfBmp(id.value);
      true
    else
      false
  }

  // ---------------------------------------------------------------------
  // GET: role-based query

  /** The Mongo query GET builds: `{status: ...}` or `{username: ...}`. */
  datatype Filter = StatusIs(status: Status) | OwnedBy(username: string)

  predicate Matches(o: Order, f: Filter) {
    match f
    case StatusIs(s) => o.status == s
    case OwnedBy(u) => o.username == u
  }

  /** The query for a session's role, or `None` for a role GET refuses. */
  function RoleFilter(s: Session): (f: Option<Filter>)
    ensures f.None? <==> ToLower(s.role) !in ["manager", "accountant", "user"]
  {
    var role := ToLower(s.role);
    if role == "manager" then Some(StatusIs(Pending))
    else if role == "accountant" then Some(StatusIs(Approved))
    else if role == "user" then Some(OwnedBy(Trim(s.name)))
    else None
  }

  /** Who sees what: a manager sees the pending orders, an accountant the
      approved ones, a user exactly the orders it owns; any other role sees
      nothing. */
  lemma RoleFilterVisibility(s: Session, o: Order)
    ensures RoleFilter(s).Some? && Matches(o, RoleFilter(s).value) <==>
      || (HasRole(s, "manager") && o.status == Pending)
      || (HasRole(s, "accountant") && o.status == Approved)
      || (HasRole(s, "user") && Owns(s, o))
  {
  }

  // ---------------------------------------------------------------------
  // GET: pagination arithmetic

  /** `Math.max(parseInt(page ?? "1"), 1)` for an integer parameter. */
  function PageParam(raw: Option<int>): (page: int)
    ensures page >= 1
    ensures raw.None? ==> page == 1
    ensures raw.Some? ==> page == (if raw.value < 1 then 1 else raw.value)
  {
    var p := raw.GetOr(1);
    if p < 1 then 1 else p
  }

  /** `Math.min(Math.max(parseInt(limit ?? "10"), 1), 100)` for an integer
      parameter. */
  function LimitParam(raw: Option<int>): (limit: int)
    ensures 1 <= limit <= 100
    ensures raw.None? ==> limit == 10
    ensures raw.Some? && 1 <= raw.value <= 100 ==> limit == raw.value
    ensures raw.Some? && raw.value < 1 ==> limit == 1
    ensures raw.Some? && raw.value > 100 ==> limit == 100
  {
    var l := raw.GetOr(10);
    var atLeastOne := if l < 1 then 1 else l;
    if atLeastOne > 100 then 100 else atLeastOne
  }

  /** `(page - 1) * limit`: the number of records on the earlier pages. */
  function Skip(page: int, limit: int): (skip: nat)
    requires page >= 1 && limit >= 1
    ensures skip + limit == page * limit
  {
    (page - 1) * limit
  }

  /** `Math.ceil(total / limit)`: the least page count whose pages hold all
      `total` records. */
  function PageCount(total: nat, limit: int): (pages: nat)
    requires limit >= 1
    ensures pages * limit >= total
    ensures total > 0 ==> (pages - 1) * limit < total
    ensures total == 0 ==> pages == 0
  {
    if total % limit == 0 then total / limit else total / limit + 1
  }

  /** `.skip(skip).limit(limit)` on a result list. */
  function PageOf<T>(s: seq<T>, skip: nat, limit: nat): (r: seq<T>)
    ensures |r| == (if skip >= |s| then 0 else if |s| - skip < limit then |s| - skip else limit)
    ensures forall k :: 0 <= k < |r| ==> r[k] == s[skip + k]
  {
    if skip >= |s| then [] else if |s| - skip < limit then s[skip..] else s[skip..skip + limit]
  }

  /** A page holds records of the listing, in the listing's order. */
  lemma PageOfKeepsOrder(s: seq<Order>, skip: nat, limit: nat)
    ensures forall o :: o in PageOf(s, skip, limit) ==> o in s
    ensures Descending(s) ==> Descending(PageOf(s, skip, limit))
  {
    var r := PageOf(s, skip, limit);
    forall o | o in r ensures o in s {
      var k :| 0 <= k < |r| && r[k] == o;
      assert s[skip + k] == o;
    }
    if Descending(s) {
      forall i, j | 0 <= i < j < |r| ensures r[i].createdAt > r[j].createdAt {
        assert r[i] == s[skip + i] && r[j] == s[skip + j];
      }
    }
  }

  lemma MulMonotone(a: int, b: int, c: int)
    requires a <= b && c >= 0
    ensures a * c <= b * c
  {
  }

  /** A page holds records exactly when its number is at most the page
      count GET reports. */
  lemma {:induction false} PageNonEmptyIff(total: nat, page: int, limit: int)
    requires page >= 1 && limit >= 1
    ensures Skip(page, limit) < total <==> page <= PageCount(total, limit)
  {
    var pages := PageCount(total, limit);
    if page <= pages {
      MulMonotone(page - 1, pages - 1, limit);
    } else {
      MulMonotone(pages, page - 1, limit);
    }
  }

  /** The worked example: 25 records, 10 per page, page 3 holds the last 5
      of them, and there are 3 pages. */
  lemma PaginationExample<T>(s: seq<T>)
    requires |s| == 25
    ensures var l := LimitParam(Some(10)); var p := PageParam(Some(3));
      && PageOf(s, Skip(p, l), l) == s[20..]
      && PageCount(|s|, l) == 3
  {
  }

  // ---------------------------------------------------------------------
  // GET: newest-first selection

  /** Creation timestamps increase along `ids`. */
  ghost predicate Ascending(orders: map<string, Order>, ids: seq<string>) {
    forall i, j :: 0 <= i < j < |ids| && ids[i] in orders && ids[j] in orders ==>
      orders[ids[i]].createdAt < orders[ids[j]].createdAt
  }

  /** Creation timestamps decrease along a result list: `sort({createdAt: -1})`. */
  ghost predicate Descending(os: seq<Order>) {
    forall i, j :: 0 <= i < j < |os| ==> os[i].createdAt > os[j].createdAt
  }

  /** `Order.find(query).sort({createdAt: -1})` over the ids in creation
      order: the matching orders, newest first. */
  function NewestFirst(orders: map<string, Order>, ids: seq<string>, f: Filter): (r: seq<Order>)
    requires forall id :: id in ids ==> id in orders
    ensures |r| <= |ids|
    ensures forall o :: o in r ==> Matches(o, f) && exists id :: id in ids && orders[id] == o
    ensures forall id :: id in ids && Matches(orders[id], f) ==> orders[id] in r
    decreases |ids|
  {
    if ids == [] then []
    else
      var last := ids[|ids| - 1];
      var rest := NewestFirst(orders, ids[..|ids| - 1], f);
      assert forall id :: id in ids ==> id == last || id in ids[..|ids| - 1];
      if Matches(orders[last], f) then [orders[last]] + rest else rest
  }

  /** Newest first really is newest first: when creation times increase
      along the store's creation order, they strictly decrease along every
      GET result. */
  lemma {:induction false} NewestFirstDescending(orders: map<string, Order>, ids: seq<string>, f: Filter)
    requires forall id :: id in ids ==> id in orders
    requires Ascending(orders, ids)
    ensures Descending(NewestFirst(orders, ids, f))
  {
    if ids != [] {
      var n := |ids|;
      var init, last := ids[..n - 1], ids[n - 1];
      AscendingPrefix(orders, ids);
      NewestFirstDescending(orders, init, f);
      forall i | 0 <= i < |init| ensures orders[init[i]].createdAt < orders[last].createdAt {
        assert init[i] == ids[i];
      }
      NewestFirstBefore(orders, init, f, orders[last].createdAt);
      if Matches(orders[last], f) {
        PrependDescending(orders[last], NewestFirst(orders, init, f));
      }
    }
  }

  lemma AscendingPrefix(orders: map<string, Order>, ids: seq<string>)
    requires ids != [] && Ascending(orders, ids)
    ensures Ascending(orders, ids[..|ids| - 1])
  {
    var init := ids[..|ids| - 1];
    forall i, j | 0 <= i < j < |init| && init[i] in orders && init[j] in orders
      ensures orders[init[i]].createdAt < orders[init[j]].createdAt
    {
      assert init[i] == ids[i] && init[j] == ids[j];
    }
  }

  /** Orders drawn from ids created before `t` were all created before `t`. */
  lemma NewestFirstBefore(orders: map<string, Order>, ids: seq<string>, f: Filter, t: nat)
    requires forall id :: id in ids ==> id in orders
    requires forall i :: 0 <= i < |ids| ==> orders[ids[i]].createdAt < t
    ensures forall o :: o in NewestFirst(orders, ids, f) ==> o.createdAt < t
  {
    forall o | o in NewestFirst(orders, ids, f) ensures o.createdAt < t {
      var id :| id in ids && orders[id] == o;
      var i :| 0 <= i < |ids| && ids[i] == id;
    }
  }

  lemma PrependDescending(x: Order, rest: seq<Order>)
    requires Descending(rest)
    requires forall o :: o in rest ==> o.createdAt < x.createdAt
    ensures Descending([x] + rest)
  {
    var r := [x] + rest;
    forall i, j | 0 <= i < j < |r| ensures r[i].createdAt > r[j].createdAt {
      assert r[j] == rest[j - 1];
      if i > 0 {
        assert r[i] == rest[i - 1];
      }
    }
  }

  /** The ids with `x` removed, in the same order. */
  function Without(ids: seq<string>, x: string): (r: seq<string>)
    ensures forall y :: y in r <==> y in ids && y != x
    decreases |ids|
  {
    if ids == [] then []
    else
      var rest := Without(ids[1..], x);
      assert forall y :: y in ids <==> y == ids[0] || y in ids[1..];
      if ids[0] == x then rest else [ids[0]] + rest
  }

  /** Deleting an order keeps creation order ascending among the rest. */
  lemma {:induction false} AscendingWithout(orders: map<string, Order>, ids: seq<string>, x: string)
    requires Ascending(orders, ids)
    ensures Ascending(orders - {x}, Without(ids, x))
    decreases |ids|
  {
    if ids != [] {
      var tail := ids[1..];
      assert Ascending(orders, tail) by {
        forall i, j | 0 <= i < j < |tail| && tail[i] in orders && tail[j] in orders
          ensures orders[tail[i]].createdAt < orders[tail[j]].createdAt
        {
          assert tail[i] == ids[i + 1] && tail[j] == ids[j + 1];
        }
      }
      AscendingWithout(orders, tail, x);
      var rest := Without(tail, x);
      if ids[0] != x && ids[0] in orders {
        var s := [ids[0]] + rest;
        forall j | 1 <= j < |s| && s[j] in orders - {x}
          ensures orders[ids[0]].createdAt < orders[s[j]].createdAt
        {
          assert s[j] in rest;
          var k :| 0 <= k < |tail| && tail[k] == s[j];
          assert ids[k + 1] == s[j];
        }
      }
    }
  }

  // ---------------------------------------------------------------------
  // POST and PUT payloads

  /** The POST body fields; `None` is a missing or `null` value. */
  datatype OrderInput = OrderInput(
    username: Option<string>,
    name: Option<string>,
    description: Option<string>,
    price: Option<real>,
    quantity: Option<real>)

  /** A falsy string: missing, `null` or empty. */
  predicate Falsy(s: Option<string>) {
    s.None? || s.value == ""
  }

  /** POST's required-field check: `!username || !name || !description ||
      price == null || quantity == null` (so a price of 0 is accepted). */
  function MissingField(b: OrderInput): (r: bool)
    ensures !r ==> b.username.Some? && b.name.Some? && b.description.Some? && b.price.Some? && b.quantity.Some?
    ensures !r ==> b.username.value != "" && b.name.value != "" && b.description.value != ""
  {
    Falsy(b.username) || Falsy(b.name) || Falsy(b.description) || b.price.None? || b.quantity.None?
  }

  /** The keys of a PUT body that name schema paths, at top level or under
      an update operator; `None` when the key is absent. */
  datatype Fields = Fields(
    username: Option<string>,
    name: Option<string>,
    description: Option<string>,
    quantity: Option<real>,
    price: Option<real>,
    status: Option<Status>,
    approvedBy: Option<Option<string>>,
    approvedAt: Option<Option<nat>>)

  const NoFields: Fields := Fields(None, None, None, None, None, None, None, None)

  /** The amounts of a `$inc` operator on the two numeric paths. */
  datatype Increments = Increments(quantity: Option<real>, price: Option<real>)

  const NoIncrements: Increments := Increments(None, None)

  /** A PUT body as `findByIdAndUpdate` reads it: the plain keys, and the
      `$set` and `$inc` operators the body may carry as well. */
  datatype OrderUpdate = OrderUpdate(plain: Fields, setOp: Fields, incOp: Increments)

  /** `delete updates.status; delete updates.approved_by; delete
      updates.approved_at`: the three top-level keys go, the operators stay. */
  function Strip(u: OrderUpdate): (v: OrderUpdate)
    ensures v.plain.status.None? && v.plain.approvedBy.None? && v.plain.approvedAt.None?
    ensures v.plain.(status := u.plain.status, approvedBy := u.plain.approvedBy, approvedAt := u.plain.approvedAt) == u.plain
    ensures v.setOp == u.setOp && v.incOp == u.incOp
  {
    u.(plain := u.plain.(status := None, approvedBy := None, approvedAt := None))
  }

  /** The strip the handler means to do: the three keys and every
      `$`-prefixed operator are dropped, so only plain keys remain. */
  function StripOperators(u: OrderUpdate): (v: OrderUpdate)
    ensures v.setOp == NoFields && v.incOp == NoIncrements
    ensures Strip(v) == v
  {
    OrderUpdate(Strip(u).plain, NoFields, NoIncrements)
  }

  /** A present text value with the `trim` setter applied. */
  function TrimOpt(v: Option<string>): (w: Option<string>)
    ensures w.Some? <==> v.Some?
    ensures w.Some? ==> Trimmed(w.value) && |w.value| <= |v.value|
  {
    if v.Some? then Some(Trim(v.value)) else None
  }

  /** How Mongoose casts the keys of an update: the `trim` setters of
      `username`, `name` and `description` run, as they do on a new
      document, and every other key passes unchanged (no validator runs). */
  function CastFields(f: Fields): (g: Fields)
    ensures g.(username := f.username, name := f.name, description := f.description) == f
    ensures (g.username.Some? <==> f.username.Some?) && (g.name.Some? <==> f.name.Some?)
      && (g.description.Some? <==> f.description.Some?)
    ensures g.username.Some? ==> Trimmed(g.username.value)
    ensures g.name.Some? ==> Trimmed(g.name.value)
    ensures g.description.Some? ==> Trimmed(g.description.value)
  {
    f.(username := TrimOpt(f.username), name := TrimOpt(f.name), description := TrimOpt(f.description))
  }

  /** Casting an update that was already cast changes nothing. */
  lemma CastIdempotent(f: Fields)
    ensures CastFields(CastFields(f)) == CastFields(f)
  {
    if f.username.Some? { TrimIdempotent(f.username.value); }
    if f.name.Some? { TrimIdempotent(f.name.value); }
    if f.description.Some? { TrimIdempotent(f.description.value); }
  }

  /** Each present key overwrites its field. */
  function ApplyFields(o: Order, f: Fields): Order {
    o.(username := f.username.GetOr(o.username),
       name := f.name.GetOr(o.name),
       description := f.description.GetOr(o.description),
       quantity := f.quantity.GetOr(o.quantity),
       price := f.price.GetOr(o.price),
       status := f.status.GetOr(o.status),
       approvedBy := f.approvedBy.GetOr(o.approvedBy),
       approvedAt := f.approvedAt.GetOr(o.approvedAt))
  }

  /** `findByIdAndUpdate(id, updates)` on the document's fields: Mongoose
      folds the plain keys into `$set`, where a plain key wins over the same
      key under `$set`; the setters run on the cast values, `$inc` adds to
      the numeric paths, and no validator runs. The timestamps are left to
      the schema's `timestamps` option, which the store applies: it never
      changes `createdAt` and stamps `updatedAt` on every update. */
  function ApplyUpdate(o: Order, u: OrderUpdate): (p: Order)
    ensures p.createdAt == o.createdAt && p.updatedAt == o.updatedAt
  {
    var q := ApplyFields(ApplyFields(o, CastFields(u.setOp)), CastFields(u.plain));
    q.(quantity := q.quantity + u.incOp.quantity.GetOr(0.0), price := q.price + u.incOp.price.GetOr(0.0))
  }

  /** Once the operators are dropped as well, a PUT body leaves the status
      and approval fields alone, writes every other supplied key (text
      trimmed by its setter), and keeps every other field. */
  lemma StrippedUpdateEffect(o: Order, u: OrderUpdate)
    ensures var p := ApplyUpdate(o, StripOperators(u));
      && p.status == o.status && p.approvedBy == o.approvedBy && p.approvedAt == o.approvedAt
      && p.createdAt == o.createdAt && p.updatedAt == o.updatedAt
      && (u.plain.username.Some? ==> p.username == Trim(u.plain.username.value))
      && (u.plain.username.None? ==> p.username == o.username)
      && (u.plain.name.Some? ==> p.name == Trim(u.plain.name.value))
      && (u.plain.name.None? ==> p.name == o.name)
      && (u.plain.description.Some? ==> p.description == Trim(u.plain.description.value))
      && (u.plain.description.None? ==> p.description == o.description)
      && p.quantity == u.plain.quantity.GetOr(o.quantity)
      && p.price == u.plain.price.GetOr(o.price)
  {
  }

  /** Once the operators are dropped, the same PUT body applied twice is
      applied once. */
  lemma UpdateIdempotent(o: Order, u: OrderUpdate)
    ensures ApplyUpdate(ApplyUpdate(o, StripOperators(u)), StripOperators(u)) == ApplyUpdate(o, StripOperators(u))
  {
  }

  /** As written, `{"$set": {"status": "approved", "approved_by": null}}`
      survives the strip: the owner's PUT approves the order with no
      approver, and the accountants' query then matches it. */
  lemma OperatorBypassesStrip(o: Order)
    ensures var u := OrderUpdate(NoFields, NoFields.(status := Some(Approved), approvedBy := Some(None)), NoIncrements);
      var p := ApplyUpdate(o, Strip(u));
      && p.status == Approved && p.approvedBy == None
      && !ApprovalConsistent(p)
      && Matches(p, StatusIs(Approved))
  {
  }

  /** As written, `{"$inc": {"quantity": 1}}` survives the strip too, so the
      same PUT sent twice does not leave the order as sending it once does. */
  lemma IncrementNotIdempotent(o: Order)
    ensures var u := OrderUpdate(NoFields, NoFields, Increments(Some(1.0), None));
      ApplyUpdate(ApplyUpdate(o, Strip(u)), Strip(u)) != ApplyUpdate(o, Strip(u))
  {
  }

  /** `username` is not stripped: an owner's PUT can hand the order to
      someone else, after which the former owner no longer owns it. */
  lemma PutCanReassignOwner(s: Session, o: Order, other: string)
    requires Owns(s, o) && Trim(other) != Trim(s.name)
    ensures var u := OrderUpdate(NoFields.(username := Some(other)), NoFields, NoIncrements);
      && !Owns(s, ApplyUpdate(o, Strip(u)))
      && !Owns(s, ApplyUpdate(o, StripOperators(u)))
  {
  }

  /** The `trim` setter runs on a PUT's `username`: an owner who sends
      their own name padded with white space still owns the order. */
  lemma PaddedOwnNameKeepsOwner(s: Session, o: Order, other: string)
    requires Owns(s, o) && Trim(other) == Trim(s.name)
    ensures var u := OrderUpdate(NoFields.(username := Some(other)), NoFields, NoIncrements);
      && Owns(s, ApplyUpdate(o, Strip(u)))
      && ApplyUpdate(o, Strip(u)).username == o.username
  {
  }

  // ---------------------------------------------------------------------
  // The store and the handlers

  /** The approval facts a status update establishes: approver and approval
      time are set together, a non-pending order has been through a status
      update, and the approval is no later than the last update. */
  predicate ApprovalConsistent(o: Order) {
    && (o.approvedBy.Some? <==> o.approvedAt.Some?)
    && (o.status != Pending ==> o.approvedBy.Some?)
    && (o.approvedAt.Some? ==> o.approvedAt.value <= o.updatedAt)
  }

  ghost predicate ApprovalsConsistent(orders: map<string, Order>) {
    forall id :: id in orders ==> ApprovalConsistent(orders[id])
  }

  /** Timestamps are ordered and taken from a clock that has since advanced. */
  predicate Stamped(o: Order, clock: nat) {
    o.createdAt <= o.updatedAt < clock
  }

  /** The invariant of the collection: the creation list holds exactly the
      stored ids, in creation order, and every order is stamped. */
  ghost predicate StoreInvariant(orders: map<string, Order>, created: seq<string>, clock: nat) {
    && (forall id :: id in orders <==> id in created)
    && Ascending(orders, created)
    && (forall id :: id in orders ==> Stamped(orders[id], clock))
  }

  /** Inserting a fresh id, stamped with the current clock, at the end of
      the creation order. */
  lemma InsertKeepsInvariant(orders: map<string, Order>, created: seq<string>, clock: nat, id: string, o: Order)
    requires StoreInvariant(orders, created, clock)
    requires id !in orders && o.createdAt == clock && Stamped(o, clock + 1)
    ensures StoreInvariant(orders[id := o], created + [id], clock + 1)
  {
    var m, c := orders[id := o], created + [id];
    forall i, j | 0 <= i < j < |c| && c[i] in m && c[j] in m
      ensures m[c[i]].createdAt < m[c[j]].createdAt
    {
      assert c[i] in created;
      if j < |created| {
        assert c[j] in created;
      }
    }
    forall x | x in m ensures Stamped(m[x], clock + 1) {
      if x != id {
        assert Stamped(orders[x], clock);
      }
    }
  }

  /** Rewriting one stored order without touching its creation time. */
  lemma ReplaceKeepsInvariant(orders: map<string, Order>, created: seq<string>, clock: nat, id: string, p: Order)
    requires StoreInvariant(orders, created, clock)
    requires id in orders && p.createdAt == orders[id].createdAt && Stamped(p, clock + 1)
    ensures StoreInvariant(orders[id := p], created, clock + 1)
  {
    var m := orders[id := p];
    forall i, j | 0 <= i < j < |created| && created[i] in m && created[j] in m
      ensures m[created[i]].createdAt < m[created[j]].createdAt
    {
      assert m[created[i]].createdAt == orders[created[i]].createdAt;
      assert m[created[j]].createdAt == orders[created[j]].createdAt;
    }
    forall x | x in m ensures Stamped(m[x], clock + 1) {
      if x != id {
        assert Stamped(orders[x], clock);
      }
    }
  }

  /** Removing one order. */
  lemma RemoveKeepsInvariant(orders: map<string, Order>, created: seq<string>, clock: nat, id: string)
    requires StoreInvariant(orders, created, clock)
    ensures StoreInvariant(orders - {id}, Without(created, id), clock)
  {
    AscendingWithout(orders, created, id);
  }

  /** The stored id `findById(id)` finds: the parameter cast to an ObjectId,
      whose hex digits are read in either case; the driver's ids are
      lower-case. */
  function IdKey(id: string): (key: string)
    ensures ValidObjectId(Some(id)) ==> ValidObjectId(Some(key)) && IsLower(key)
    ensures IsLower(id) ==> key == id
  {
    ToLowerFixesLower(id);
    ToLower(id)
  }

  /** The `Order` collection: documents by id, the ids in creation order,
      and the clock that stamps `createdAt`, `updatedAt` and `approved_at`
      (strictly increasing: each insert or update reads it once and advances it). */
  class OrderStore {
    var orders: map<string, Order>
    var created: seq<string>
    var clock: nat

    ghost predicate Valid()
      reads this
    {
      StoreInvariant(orders, created, clock)
    }

    constructor ()
      ensures Valid()
      ensures orders == map[] && created == [] && clock == 0
    {
      orders, created, clock := map[], [], 0;
    }

    /** GET /orders?page&limit. */
    method Get(session: Option<Session>, pageParam: Option<int>, limitParam: Option<int>)
      returns (r: Reply)
      requires Valid()
      ensures session.None? ==> r == Reply(401, Message(Unauthorized))
      ensures session.Some? && RoleFilter(session.value).None? ==> r == Reply(403, Message(InvalidRole))
      ensures r.code == 200 <==> session.Some? && RoleFilter(session.value).Some?
      ensures r.code == 200 ==>
        var f := RoleFilter(session.value).value;
        var all := NewestFirst(orders, created, f);
        && r.body.Listing?
        && r.body.page == PageParam(pageParam)
        && r.body.limit == LimitParam(limitParam)
        && r.body.total == |all|
        && r.body.pages == PageCount(|all|, r.body.limit)
        && r.body.orders == PageOf(all, Skip(r.body.page, r.body.limit), r.body.limit)
        && |r.body.orders| <= r.body.limit
        && (forall o :: o in r.body.orders ==> o in orders.Values && Matches(o, f))
        && Descending(r.body.orders)
    {
      if session.None? {
        return Reply(401, Message(Unauthorized));
      }
      var page := PageParam(pageParam);
      var limit := LimitParam(limitParam);
      var skip := Skip(page, limit);
      var filter := RoleFilter(session.value);
      if filter.None? {
        return Reply(403, Message(InvalidRole));
      }
      var all := NewestFirst(orders, created, filter.value);
      NewestFirstDescending(orders, created, filter.value);
      var shown := PageOf(all, skip, limit);
      PageOfKeepsOrder(all, skip, limit);
      r := Reply(200, Listing(shown, |all|, page, limit, PageCount(|all|, limit)));
    }

    /** POST /orders. `newId` is the `_id` the driver generates for the new
        document, in its lower-case hex form. */
    method Post(session: Option<Session>, body: OrderInput, newId: string) returns (r: Reply)
      requires Valid()
      requires ValidObjectId(Some(newId)) && IsLower(newId)
      modifies this
      ensures Valid()
      ensures ApprovalsConsistent(old(orders)) ==> ApprovalsConsistent(orders)
      ensures session.None? ==> r == Reply(401, Message(Unauthorized))
      ensures session.Some? && !CheckRole(session, ["user"]) ==>
        r == Reply(403, Message(InsufficientPermissions))
      ensures CheckRole(session, ["user"]) && MissingField(body) ==> r == Reply(400, Message(MissingFields))
      ensures CheckRole(session, ["user"]) && !MissingField(body) ==>
        var made := CreateOrder(body.username.value, body.name.value, body.description.value,
                                body.price.value, body.quantity.value, old(clock));
        && (made.None? ==> r == Reply(500, StoreError(ValidationFailed, "Creation failed")))
        && (made.Some? && newId in old(orders) ==> r == Reply(500, StoreError(DuplicateKey, "Creation failed")))
        && (made.Some? && newId !in old(orders) ==>
              && r == Reply(201, Single(made.value))
              && orders == old(orders)[newId := made.value]
              && created == old(created) + [newId]
              && clock == old(clock) + 1)
      ensures r.code != 201 ==> orders == old(orders) && created == old(created) && clock == old(clock)
    {
      if session.None? {
        return Reply(401, Message(Unauthorized));
      }
      if !CheckRole(session, ["user"]) {
        return Reply(403, Message(InsufficientPermissions));
      }
      if MissingField(body) {
        return Reply(400, Message(MissingFields));
      }
      var made := CreateOrder(body.username.value, body.name.value, body.description.value,
                              body.price.value, body.quantity.value, clock);
      if made.None? {
        return Reply(500, StoreError(ValidationFailed, "Creation failed"));
      }
      if newId in orders {
        return Reply(500, StoreError(DuplicateKey, "Creation failed"));
      }
      var o := made.value;
      InsertKeepsInvariant(orders, created, clock, newId, o);
      orders := orders[newId := o];
      created := created + [newId];
      clock := clock + 1;
      r := Reply(201, Single(o));
    }

    /** PUT /orders?id=..., as written: the body, less three top-level keys,
        goes to `findByIdAndUpdate`. */
    method Put(session: Option<Session>, id: Option<string>, payload: OrderUpdate) returns (r: Reply)
      requires Valid()
      modifies this
      ensures Valid()
      ensures session.None? ==> r == Reply(401, Message(Unauthorized))
      ensures session.Some? && !ValidObjectId(id) ==> r == Reply(400, Message(InvalidId))
      ensures session.Some? && ValidObjectId(id) && !HasRole(session.value, "user") ==>
        r == Reply(403, Message(OnlyUsersUpdate))
      ensures session.Some? && ValidObjectId(id) && HasRole(session.value, "user") ==>
        var key := IdKey(id.value);
        && (key !in old(orders) ==> r == Reply(404, Message(NotFound)))
        && (key in old(orders) && !Owns(session.value, old(orders)[key]) ==>
              r == Reply(403, Message(NotOwnerUpdate)))
        && (key in old(orders) && Owns(session.value, old(orders)[key]) ==>
              var p := ApplyUpdate(old(orders)[key], Strip(payload)).(updatedAt := old(clock));
              && r == Reply(200, Single(p))
              && orders == old(orders)[key := p]
              && created == old(created)
              && clock == old(clock) + 1)
      ensures r.code != 200 ==> orders == old(orders) && created == old(created) && clock == old(clock)
    {
      if session.None? {
        return Reply(401, Message(Unauthorized));
      }
      if !ValidObjectId(id) {
        return Reply(400, Message(InvalidId));
      }
      if !HasRole(session.value, "user") {
        return Reply(403, Message(OnlyUsersUpdate));
      }
      var updates := Strip(payload);
      var key := IdKey(id.value);
      if key !in orders {
        return Reply(404, Message(NotFound));
      }
      var order := orders[key];
      if !Owns(session.value, order) {
        return Reply(403, Message(NotOwnerUpdate));
      }
      var p := ApplyUpdate(order, updates).(updatedAt := clock);
      ReplaceKeepsInvariant(orders, created, clock, key, p);
      orders := orders[key := p];
      clock := clock + 1;
      r := Reply(200, Single(p));
    }

    /** PUT with the `$`-prefixed operators dropped from the body as well,
        so the strip does what the handler's comment says: an owner edits
        the plain fields and can never change status or approval. */
    method PutFieldsOnly(session: Option<Session>, id: Option<string>, payload: OrderUpdate) returns (r: Reply)
      requires Valid()
      modifies this
      ensures Valid()
      ensures ApprovalsConsistent(old(orders)) ==> ApprovalsConsistent(orders)
      ensures r.code == 200 <==>
        && session.Some? && ValidObjectId(id) && HasRole(session.value, "user")
        && IdKey(id.value) in old(orders) && Owns(session.value, old(orders)[IdKey(id.value)])
      ensures r.code == 200 ==>
        var key := IdKey(id.value);
        var o := old(orders)[key];
        && orders == old(orders)[key := ApplyUpdate(o, StripOperators(payload)).(updatedAt := old(clock))]
        && orders[key].status == o.status
        && orders[key].approvedBy == o.approvedBy
        && orders[key].approvedAt == o.approvedAt
        && created == old(created)
      ensures r.code != 200 ==> orders == old(orders) && created == old(created) && clock == old(clock)
    {
      r := Put(session, id, StripOperators(payload));
      if r.code == 200 {
        var key := IdKey(id.value);
        StrippedUpdateEffect(old(orders)[key], payload);
        assert Stamped(old(orders)[key], old(clock));
      }
    }

    /** PATCH /orders?id=... with body `{status}`. */
    method Patch(session: Option<Session>, id: Option<string>, newStatus: Option<string>)
      returns (r: Reply)
      requires Valid()
      modifies this
      ensures Valid()
      ensures ApprovalsConsistent(old(orders)) ==> ApprovalsConsistent(orders)
      ensures session.None? ==> r == Reply(401, Message(Unauthorized))
      ensures session.Some? && !ValidObjectId(id) ==> r == Reply(400, Message(InvalidId))
      ensures session.Some? && ValidObjectId(id) && !HasRole(session.value, "manager") ==>
        r == Reply(403, Message(OnlyManagers))
      ensures session.Some? && ValidObjectId(id) && HasRole(session.value, "manager") ==>
        var key := IdKey(id.value);
        && (newStatus.None? || ParseStatus(newStatus.value).None? ==> r == Reply(400, Message(InvalidStatus)))
        && (newStatus.Some? && ParseStatus(newStatus.value).Some? ==>
              && (key !in old(orders) ==> r == Reply(404, Message(NotFound)))
              && (key in old(orders) ==>
                    var p := old(orders)[key].(status := ParseStatus(newStatus.value).value,
                                               approvedBy := Some(session.value.id),
                                               approvedAt := Some(old(clock)),
                                               updatedAt := old(clock));
                    && r == Reply(200, Single(p))
                    && orders == old(orders)[key := p]
                    && created == old(created)
                    && clock == old(clock) + 1))
      ensures r.code != 200 ==> orders == old(orders) && created == old(created) && clock == old(clock)
    {
      if session.None? {
        return Reply(401, Message(Unauthorized));
      }
      if !ValidObjectId(id) {
        return Reply(400, Message(InvalidId));
      }
      if !HasRole(session.value, "manager") {
        return Reply(403, Message(OnlyManagers));
      }
      if newStatus.None? || ParseStatus(newStatus.value).None? {
        return Reply(400, Message(InvalidStatus));
      }
      var key := IdKey(id.value);
      if key !in orders {
        return Reply(404, Message(NotFound));
      }
      var p := orders[key].(status := ParseStatus(newStatus.value).value,
                            approvedBy := Some(session.value.id),
                            approvedAt := Some(clock),
                            updatedAt := clock);
      ReplaceKeepsInvariant(orders, created, clock, key, p);
      orders := orders[key := p];
      clock := clock + 1;
      r := Reply(200, Single(p));
    }

    /** DELETE /orders?id=... */
    method Delete(session: Option<Session>, id: Option<string>) returns (r: Reply)
      requires Valid()
      modifies this
      ensures Valid()
      ensures ApprovalsConsistent(old(orders)) ==> ApprovalsConsistent(orders)
      ensures session.None? ==> r == Reply(401, Message(Unauthorized))
      ensures session.Some? && !ValidObjectId(id) ==> r == Reply(400, Message(InvalidId))
      ensures session.Some? && ValidObjectId(id) && !HasRole(session.value, "user") ==>
        r == Reply(403, Message(OnlyUsersDelete))
      ensures session.Some? && ValidObjectId(id) && HasRole(session.value, "user") ==>
        var key := IdKey(id.value);
        && (key !in old(orders) ==> r == Reply(404, Message(NotFound)))
        && (key in old(orders) && !Owns(session.value, old(orders)[key]) ==>
              r == Reply(403, Message(NotOwnerDelete)))
        && (key in old(orders) && Owns(session.value, old(orders)[key]) ==>
              && r == Reply(200, Message(Deleted))
              && orders == old(orders) - {key}
              && created == Without(old(created), key)
              && clock == old(clock))
      ensures r.code != 200 ==> orders == old(orders) && created == old(created) && clock == old(clock)
    {
      if session.None? {
        return Reply(401, Message(Unauthorized));
      }
      if !ValidObjectId(id) {
        return Reply(400, Message(InvalidId));
      }
      if !HasRole(session.value, "user") {
        return Reply(403, Message(OnlyUsersDelete));
      }
      var key := IdKey(id.value);
      if key !in orders {
        return Reply(404, Message(NotFound));
      }
      if !Owns(session.value, orders[key]) {
        return Reply(403, Message(NotOwnerDelete));
      }
      RemoveKeepsInvariant(orders, created, clock, key);
      orders := orders - {key};
      created := Without(created, key);
      r := Reply(200, Message(Deleted));
    }
  }

  /** A user places a valid order in an empty collection. */
  method PlaceOrder(owner: string, product: string, details: string,
                    price: real, quantity: real, id: string)
    returns (store: OrderStore)
    requires Trimmed(owner) && Trimmed(product) && Trimmed(details)
    requires 3 <= JsLength(owner) <= 30 && 3 <= JsLength(product) <= 50 && 6 <= JsLength(details) <= 200
    requires price >= 0.0 && quantity >= 1.0
    requires ValidObjectId(Some(id)) && IsLower(id)
    ensures fresh(store) && store.Valid() && ApprovalsConsistent(store.orders)
    ensures store.created == [id] && store.orders.Keys == {id}
    ensures store.orders[id].username == owner && store.orders[id].status == Pending
  {
    TrimOfTrimmed(owner);
    TrimOfTrimmed(product);
    TrimOfTrimmed(details);
    RoleNamesLowerCase();
    store := new OrderStore();
    var alice := Session("u-1", owner, "user");
    var input := OrderInput(Some(owner), Some(product), Some(details), Some(price), Some(quantity));
    assert CheckRole(Some(alice), ["user"]);
    assert CreateOrder(owner, product, details, price, quantity, 0).Some?;
    var r := store.Post(Some(alice), input, id);
  }

  /** The first half of the approval walk-through: a user orders and a
      manager approves. */
  method OrderAndApprove(owner: string, product: string, details: string,
                         price: real, quantity: real, id: string)
    returns (store: OrderStore)
    requires Trimmed(owner) && Trimmed(product) && Trimmed(details)
    requires 3 <= JsLength(owner) <= 30 && 3 <= JsLength(product) <= 50 && 6 <= JsLength(details) <= 200
    requires price >= 0.0 && quantity >= 1.0
    requires ValidObjectId(Some(id)) && IsLower(id)
    ensures fresh(store) && store.Valid() && ApprovalsConsistent(store.orders)
    ensures store.created == [id] && store.orders.Keys == {id}
    ensures store.orders[id].username == owner && store.orders[id].status == Approved
    ensures store.orders[id].approvedBy == Some("m-1")
  {
    store := PlaceOrder(owner, product, details, price, quantity, id);
    RoleNamesLowerCase();
    var boss := Session("m-1", "carol", "manager");
    assert IdKey(id) == id;
    var r := store.Patch(Some(boss), Some(id), Some("approved"));
  }

  /** The second half: once the only order is approved, the accountant's
      listing is that order, the manager's pending list is empty, and a
      user who does not own it cannot delete it. */
  method ApprovedOrderVisibility(store: OrderStore, id: string, other: string)
    returns (accountantView: seq<Order>, managerView: seq<Order>, deleteCode: int)
    requires store.Valid() && store.created == [id] && store.orders.Keys == {id}
    requires store.orders[id].status == Approved
    requires Trimmed(other) && store.orders[id].username != other
    requires ValidObjectId(Some(id)) && IsLower(id)
    modifies store
    ensures store.orders == old(store.orders)
    ensures accountantView == [store.orders[id]] && managerView == [] && deleteCode == 403
  {
    RoleNamesLowerCase();
    TrimOfTrimmed(other);
    var bob := Session("u-2", other, "user");
    var boss := Session("m-1", "carol", "manager");
    var books := Session("a-1", "dave", "accountant");
    var approved := store.orders[id];
    assert [id][..0] == [];
    assert NewestFirst(store.orders, [id], StatusIs(Approved)) == [approved];
    assert NewestFirst(store.orders, [id], StatusIs(Pending)) == [];
    var r := store.Get(Some(books), None, None);
    assert RoleFilter(books) == Some(StatusIs(Approved));
    assert r.body.orders == PageOf([approved], 0, 10) == [approved];
    accountantView := r.body.orders;
    r := store.Get(Some(boss), None, None);
    assert RoleFilter(boss) == Some(StatusIs(Pending));
    managerView := r.body.orders;
    r := store.Delete(Some(bob), Some(id));
    deleteCode := r.code;
  }

  /** The approval walk-through, for any two distinct users and any order
      the schema accepts: the owner orders, a manager approves, the
      accountant now sees the order and the manager's pending list no longer
      does, and the other user cannot delete it. */
  method ApprovalScenario(owner: string, other: string, product: string, details: string,
                          price: real, quantity: real, id: string)
    returns (accountantView: seq<Order>, managerView: seq<Order>, deleteCode: int)
    requires Trimmed(owner) && Trimmed(other) && owner != other
    requires Trimmed(product) && Trimmed(details)
    requires 3 <= JsLength(owner) <= 30 && 3 <= JsLength(product) <= 50 && 6 <= JsLength(details) <= 200
    requires price >= 0.0 && quantity >= 1.0
    requires ValidObjectId(Some(id)) && IsLower(id)
    ensures |accountantView| == 1 && accountantView[0].status == Approved && accountantView[0].username == owner
    ensures managerView == [] && deleteCode == 403
  {
    var store := OrderAndApprove(owner, product, details, price, quantity, id);
    accountantView, managerView, deleteCode := ApprovedOrderVisibility(store, id, other);
  }
}
