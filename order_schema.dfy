/** The `Order` document: its fields, the setters and defaults Mongoose
    applies when one is created, and the validators it must pass
    (models/order.js). */
module OrderSchema {
  import opened Wrappers
  import opened Strings

  /** The `status` enum. */
  datatype Status = Pending | Approved | Rejected

  function StatusName(s: Status): string {
    match s
    case Pending => "pending"
    case Approved => "approved"
    case Rejected => "rejected"
  }

  /** Reads a client-supplied status; only the three enum names are accepted. */
  function ParseStatus(name: string): (r: Option<Status>)
    ensures r.Some? <==> name in ["pending", "approved", "rejected"]
    ensures r.Some? ==> StatusName(r.value) == name
  {
    if name == "pending" then Some(Pending)
    else if name == "approved" then Some(Approved)
    else if name == "rejected" then Some(Rejected)
    else None
  }

  lemma {:induction false} StatusRoundTrip(s: Status)
    ensures ParseStatus(StatusName(s)) == Some(s)
  {
    match s
    case Pending =>
    case Approved =>
    case Rejected =>
  }

  /** A stored order. `approvedBy` is the manager reference and `approvedAt`
      the approval time, both `null` until a status update; `createdAt` and
      `updatedAt` are the timestamps the schema's `timestamps` option keeps.
      Mongoose `Number` fields are modelled as reals. */
  datatype Order = Order(
    username: string,
    name: string,
    description: string,
    quantity: real,
    price: real,
    status: Status,
    approvedBy: Option<string>,
    approvedAt: Option<nat>,
    createdAt: nat,
    updatedAt: nat)

  /** What the field validators check of a (trimmed) document: the
      `minlength`/`maxlength` bounds on the JavaScript length (so `required`
      strings are non-empty) and the numeric minimums. The `status` enum is enforced by its type. */
  predicate ValidOrder(o: Order) {
    && 3 <= JsLength(o.username) <= 30
    && 3 <= JsLength(o.name) <= 50
    && 6 <= JsLength(o.description) <= 200
    && o.quantity >= 1.0
    && o.price >= 0.0
  }

  /** The `trim` setters have been applied to the three text fields. */
  predicate TrimmedOrder(o: Order) {
    Trimmed(o.username) && Trimmed(o.name) && Trimmed(o.description)
  }

  /** `Order.create({...})`: apply the `trim` setters and the defaults
      (`status` pending, `approved_by` and `approved_at` null), stamp both
      timestamps with `now`, then run the validators; `None` is the
      validation error the create call throws. */
  function CreateOrder(username: string, name: string, description: string,
                       price: real, quantity: real, now: nat): (r: Option<Order>)
    ensures r.Some? <==>
      && 3 <= JsLength(Trim(username)) <= 30
      && 3 <= JsLength(Trim(name)) <= 50
      && 6 <= JsLength(Trim(description)) <= 200
      && quantity >= 1.0 && price >= 0.0
    ensures r.Some? ==> ValidOrder(r.value) && TrimmedOrder(r.value)
    ensures r.Some? ==>
      && r.value.username == Trim(username)
      && r.value.name == Trim(name)
      && r.value.description == Trim(description)
      && r.value.price == price && r.value.quantity == quantity
    ensures r.Some? ==>
      && r.value.status == Pending
      && r.value.approvedBy == None && r.value.approvedAt == None
      && r.value.createdAt == now == r.value.updatedAt
  {
    var o := Order(Trim(username), Trim(name), Trim(description), quantity, price,
                   Pending, None, None, now, now);
    if ValidOrder(o) then Some(o) else None
  }

  /** A username of white space only passes a truthiness check but is
      rejected by the schema, because `trim` empties it before `minlength`
      runs. */
  lemma BlankUsernameRejected(username: string, name: string, description: string,
                              price: real, quantity: real, now: nat)
    requires |username| > 0 && AllSpace(username)
    ensures CreateOrder(username, name, description, price, quantity, now) == None
  {
    TrimAllSpace(username);
  }

  /** A product name of two emoji is four code units long, so it passes
      the `minlength` of 3 although it is two characters. */
  lemma TwoEmojiNameAccepted(username: string, description: string, price: real, quantity: real, now: nat)
    requires Trimmed(username) && 3 <= JsLength(username) <= 30
    requires Trimmed(description) && 6 <= JsLength(description) <= 200
    requires price >= 0.0 && quantity >= 1.0
    ensures CreateOrder(username, "\U{1F355}\U{1F355}", description, price, quantity, now).Some?
  {
    TwoEmojiAreFourUnits();
    TrimOfTrimmed(username);
    TrimOfTrimmed(description);
    TrimOfTrimmed("\U{1F355}\U{1F355}");
  }
}
