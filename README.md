# Order approval: a Dafny model

A Dafny model of the server side of a small order-approval web application.
Users place purchase orders. Managers approve or reject them. Accountants see
the approved ones. The model covers:

- the `/orders` API (`GET`, `POST`, `PUT`, `PATCH`, `DELETE`), with its role
  checks, ownership checks, role-based query, pagination and newest-first
  ordering, over an in-memory `Order` collection (`OrdersRoute`, with the
  collection as the class `OrdersRoute.OrderStore`);
- the `Order` document: `trim` setters, defaults, validators and timestamps
  (`OrderSchema`);
- the registration endpoint over the `User` collection, with its unique
  indexes (`RegisterRoute`, `UserSchema`);
- the `Manager` document: setters, validators, and the pre-save hook that
  hashes a password only when it was modified (`ManagerSchema`);
- the `Admin` document's setters and validators (`AdminSchema`);
- the route guard for the manager pages (`Middleware`);
- the JavaScript string operations all of these rely on: `trim`,
  `toLowerCase`, `length` in UTF-16 code units, `startsWith` and the
  e-mail and phone patterns (`Strings`).

Each handler is a method of the collection class. It returns the status code
and the JSON body. Its contract lists every early return (401, 400, 403, 404),
the success case, and the new state of the collection. Rejected requests
leave the collection unchanged. Every handler keeps the collection's
invariant: the creation list holds exactly the stored ids, creation times
increase along it, and timestamps come from a clock that only moves forward.
A second property, that an order's approver and approval time are set
together and only by a status update, is kept by `POST`, `PATCH`, `DELETE`
and the corrected `PUT`, but not by `PUT` as written (see "## Findings").

Where the code does something a reader of the application might not
expect, the model follows the code:

- `POST` takes the owner's `username` from the request body, not from the
  session.
- `PUT` strips only the top-level keys `status`, `approved_by` and
  `approved_at`. An owner can therefore rename the owner of an order
  (`OrdersRoute.PutCanReassignOwner`). An owner can also edit an order that
  is no longer pending.
- `PATCH` accepts any of the three statuses from any current status. It
  re-stamps `approved_by` and `approved_at` every time.
- `DELETE` works on an order whatever its status.
- The route guard compares the role case-sensitively. The API compares it
  case-insensitively (`Middleware.RoleCaseMismatch`).
- The schemas' `minlength` and `maxlength` count UTF-16 code units
  (`Strings.JsLength`), so a character outside the Basic Multilingual Plane
  counts twice.
- An order id is found in any letter case of its hex digits
  (`OrdersRoute.IdKey`).

Modelling choices:

- A session is `Option<Session>`. `None` means no session. The session
  carries the user's id, name and role.
- Query parameters and `POST` body fields are `Option` values. `None` means
  missing or `null`. In a `PUT` body, `None` on a text or number field
  means the key is absent (see "## Left out" for `null` there).
- A `PUT` body is its plain keys plus the `$set` and `$inc` update
  operators, which `findByIdAndUpdate` applies as well, after running the
  schema's `trim` setters on the text values (`OrdersRoute.CastFields`).
- `new Date()` is the store's `clock`, a counter. Each insert or update
  reads it once and then advances it; a delete leaves it alone.
- The `_id` the driver generates for a new order is a parameter of `Post`,
  in its lower-case hex form.
- bcrypt is modelled by `Strings.Hash`, a stand-in that is injective and
  never returns its input (see "## Left out" for where bcrypt differs).

## Model

| member | source | states |
|---|---|---|
| Strings.Trim | src/app/api/orders/route.js:32 | `trim` is never longer than its input and leaves no white space at either end |
| Strings.TrimIsInnerSlice | src/app/api/orders/route.js:32 | `trim` keeps a contiguous slice of its input and drops only white space before and after it |
| Strings.TrimIdempotent | models/order.js:8 | trimming twice gives the same result as trimming once |
| Strings.TrimAllSpace | models/order.js:5-11 | a string made only of white space trims to the empty string |
| Strings.TrimLowerCommute | models/manager.js:13-19 | for the `lowercase` and `trim` setters on `email`, their order does not matter |
| Strings.ToLower | src/app/api/orders/route.js:13 | `toLowerCase` keeps the length and lower-cases each character on its own |
| Strings.ToLowerFixesLower | src/app/api/register/route.js:28-34 | the result of `toLowerCase` is lower-case, and a lower-case string is left unchanged |
| Strings.ToLowerIdempotent | src/app/api/register/route.js:28-34 | lower-casing twice gives the same result as lower-casing once |
| Strings.JsLength | models/order.js:9-10 | the `length` that `minlength`/`maxlength` compare is between the number of characters and twice that |
| Strings.JsLengthOfBmp | models/order.js:9-10 | on text inside the Basic Multilingual Plane, `length` is the number of characters |
| Strings.TwoEmojiAreFourUnits | models/order.js:16-17 | two emoji are two characters but four code units |
| Strings.MatchesEmail | models/manager.js:19 | the pattern `^\S+@\S+\.\S+$`: no white space, an `@` after at least one character, then a `.` with characters on both sides; so a match has at least 5 characters and holds `@` and `.` |
| Strings.MatchesPhone | models/manager.js:25 | the pattern `^\d{10}$`: exactly ten ASCII digits, so ten code units |
| Strings.Hash | models/manager.js:47-48 | the stand-in digest is longer than the password, so it never equals the password |
| Strings.HashInjective | models/manager.js:47-48 | with the stand-in, two passwords have equal digests exactly when they are equal |
| OrderSchema.ParseStatus | models/order.js:36-40 | exactly the three enum names are accepted, and each maps back to its own name |
| OrderSchema.StatusRoundTrip | models/order.js:36-40 | parsing a status's name gives that status back |
| OrderSchema.CreateOrder | models/order.js:3-52 | creation succeeds exactly when the trimmed text fields have UTF-16 lengths within their bounds and the numbers meet their minimums; the new order holds the trimmed values, is pending, has no approval, and has both timestamps set to now |
| OrderSchema.BlankUsernameRejected | models/order.js:5-11 | a username of only white space passes the handler's truthiness check but fails the schema |
| OrderSchema.TwoEmojiNameAccepted | models/order.js:12-18 | a product name of two emoji passes `minlength: 3`, because it is four code units long |
| OrdersRoute.CheckRole | src/app/api/orders/route.js:11-15 | a role check passes only when there is a session |
| OrdersRoute.CheckRoleSingle | src/app/api/orders/route.js:11-15 | `checkRole` with one allowed role is the inline comparison, and it ignores letter case in the session's role |
| OrdersRoute.MessageField | src/app/api/orders/route.js:22-84 | a reply body has a `message` field exactly when it is a message reply or a caught store exception (`err.message`, falling back to "Creation failed"); the field holds the note's text, or the exception's message, which is never empty, so the fallback text never shows |
| OrdersRoute.Owns | src/app/api/orders/route.js:118 | ownership compares the order's `username` with the session's trimmed name, so an order whose username has white space at either end is owned by nobody |
| OrdersRoute.ValidObjectId | src/app/api/orders/route.js:8 | a valid id is present and is 24 hex digits in either letter case, hence 24 code units long |
| OrdersRoute.IdKey | src/app/api/orders/route.js:116 | `findById` reads a valid id's hex digits in either case: the key is the lower-case form, and a lower-case id is its own key |
| OrdersRoute.RoleFilter | src/app/api/orders/route.js:31-44 | GET refuses a role exactly when its lower-cased form is not manager, accountant or user |
| OrdersRoute.RoleFilterVisibility | src/app/api/orders/route.js:31-44 | a manager sees exactly the pending orders, an accountant exactly the approved ones, a user exactly its own, and any other role nothing |
| OrdersRoute.PageParam | src/app/api/orders/route.js:27 | the page is at least 1, defaults to 1, and otherwise is the parameter |
| OrdersRoute.LimitParam | src/app/api/orders/route.js:28 | the limit is clamped to 1..100 and defaults to 10 |
| OrdersRoute.Skip | src/app/api/orders/route.js:29 | the skipped records plus one page of records make `page` pages |
| OrdersRoute.PageCount | src/app/api/orders/route.js:53 | the page count is the least number of pages that holds every record: 0 pages for no records |
| OrdersRoute.PageOf | src/app/api/orders/route.js:47 | a page has the expected length, and its k-th record is record skip+k of the listing |
| OrdersRoute.PageOfKeepsOrder | src/app/api/orders/route.js:47 | a page holds only records of the listing, in the listing's order |
| OrdersRoute.PageNonEmptyIff | src/app/api/orders/route.js:27-53 | a page holds records exactly when its number is at most the reported page count |
| OrdersRoute.PaginationExample | src/app/api/orders/route.js:27-53 | with 25 records and limit 10, page 3 is the last 5 records, and there are 3 pages |
| OrdersRoute.NewestFirst | src/app/api/orders/route.js:47 | the listing holds exactly the stored orders that match the query |
| OrdersRoute.NewestFirstDescending | src/app/api/orders/route.js:47 | when creation times increase along the store, they strictly decrease along the listing |
| OrdersRoute.Without | src/app/api/orders/route.js:196 | removing an id keeps every other id and only those |
| OrdersRoute.AscendingWithout | src/app/api/orders/route.js:196 | removing an order keeps the creation order of the others |
| OrdersRoute.MissingField | src/app/api/orders/route.js:76 | a body that passes POST's check has every field present and non-empty text fields; price and quantity need only be present, so a price of 0 passes |
| OrdersRoute.Strip | src/app/api/orders/route.js:110-113 | the stripped body has no top-level status or approval keys, keeps every other top-level key, and keeps its operators |
| OrdersRoute.StripOperators | src/app/api/orders/route.js:110-113 | the strip the comment at line 110 asks for: no operators remain, and stripping again changes nothing |
| OrdersRoute.CastFields | models/order.js:5-25 | Mongoose casts an update's keys with the `trim` setters of `username`, `name` and `description`: presence is kept, each present text is trimmed, every other key passes unchanged |
| OrdersRoute.CastIdempotent | models/order.js:5-25 | casting an update twice gives the same result as casting it once |
| OrdersRoute.PaddedOwnNameKeepsOwner | src/app/api/orders/route.js:110-122 | an owner's PUT that sends their own name padded with white space stores the trimmed name, so the owner still owns the order |
| OrdersRoute.FailureText | src/app/api/orders/route.js:84 | the message of a store exception is never empty |
| OrdersRoute.ApplyUpdate | src/app/api/orders/route.js:122 | an update's field writes never touch the timestamps: the schema's `timestamps` option keeps `createdAt` and stamps `updatedAt` on every update, which the store does |
| OrdersRoute.StrippedUpdateEffect | src/app/api/orders/route.js:110-122 | with operators dropped too, a PUT keeps status, approver, approval time and timestamps, writes every supplied plain key (text trimmed by the `trim` setter), and keeps every other field |
| OrdersRoute.UpdateIdempotent | src/app/api/orders/route.js:122 | with operators dropped too, applying the same PUT body twice gives the same result as applying it once |
| OrdersRoute.OperatorBypassesStrip | src/app/api/orders/route.js:108-122 | as written, a body `{"$set": {"status": "approved", "approved_by": null}}` survives the strip: the order becomes approved with no approver and matches the accountants' query |
| OrdersRoute.IncrementNotIdempotent | src/app/api/orders/route.js:108-122 | as written, a body `{"$inc": {"quantity": 1}}` survives the strip, so sending the same PUT twice differs from sending it once |
| OrdersRoute.PutCanReassignOwner | src/app/api/orders/route.js:110-122 | `username` is not stripped, so an owner's PUT with a name that trims to another user's gives the order away, and after that the former owner no longer owns it |
| OrdersRoute.InsertKeepsInvariant | src/app/api/orders/route.js:80 | inserting a fresh, newly stamped order at the end of the creation order keeps the collection invariant |
| OrdersRoute.ReplaceKeepsInvariant | src/app/api/orders/route.js:154-158 | rewriting an order without changing its creation time keeps the collection invariant |
| OrdersRoute.RemoveKeepsInvariant | src/app/api/orders/route.js:196 | deleting an order keeps the collection invariant |
| OrdersRoute.OrderStore.Get | src/app/api/orders/route.js:18-59 | 401 without a session, 403 for another role, otherwise the page of the role's matching orders, newest first, with total, page, limit and page count; the page holds at most `limit` stored matching orders, in strictly decreasing creation order |
| OrdersRoute.OrderStore.Post | src/app/api/orders/route.js:62-86 | 401 / 403 (not a user) / 400 (a falsy field) / 500 with the validation error (schema, by UTF-16 lengths) or else the duplicate-key error, otherwise 201 with the created order appended to the collection; nothing changes unless it returns 201; approvals stay consistent |
| OrdersRoute.OrderStore.Put | src/app/api/orders/route.js:89-128 | 401 / 400 (bad id) / 403 (not a user) / 404 / 403 (not the owner), otherwise 200 with the stripped body, operators included, cast by the `trim` setters and applied to the order the id finds in any hex case, and `updatedAt` stamped; nothing changes unless it returns 200 |
| OrdersRoute.OrderStore.PutFieldsOnly | src/app/api/orders/route.js:108-122 | the corrected PUT: it succeeds in exactly the cases PUT does, writes only plain keys (text trimmed), never changes status or approval, and keeps approvals consistent |
| OrdersRoute.OrderStore.Patch | src/app/api/orders/route.js:131-166 | 401 / 400 (bad id) / 403 (not a manager) / 400 (bad status) / 404, otherwise 200 with the new status, the manager's id and the approval time written to the order the id finds in any hex case; nothing changes unless it returns 200; approvals stay consistent |
| OrdersRoute.OrderStore.Delete | src/app/api/orders/route.js:169-202 | 401 / 400 (bad id) / 403 (not a user) / 404 / 403 (not the owner), otherwise 200 with the order the id finds in any hex case removed from the collection and from the creation order |
| OrdersRoute.PlaceOrder | src/app/api/orders/route.js:62-86 | a user's valid order in an empty collection is stored, pending, under the generated id |
| OrdersRoute.OrderAndApprove | src/app/api/orders/route.js:62-166 | a user's valid order followed by a manager's approval leaves one approved order, owned by that user, approved by that manager |
| OrdersRoute.ApprovedOrderVisibility | src/app/api/orders/route.js:18-59 | with one approved order stored, the accountant's listing is that order, the manager's is empty, and another user's DELETE gets 403 and changes nothing |
| OrdersRoute.ApprovalScenario | src/app/api/orders/route.js:18-202 | the walk-through: a user orders, a manager approves, the accountant sees the order, the manager's pending list is empty, and another user cannot delete it |
| UserSchema.Clashes | models/user.js:7-8 | the unique indexes refuse a document exactly when its email is among the stored emails or its phone among the stored phones |
| UserSchema.InsertKeepsTableValid | models/user.js:6-10 | adding a document keeps the required fields and the unique emails and phones exactly when it is complete and clashes with no index |
| UserSchema.DefaultViewHidesSecrets | models/user.js:9-10 | a default read does not depend on the password or the role |
| RegisterRoute.AnyMissing | src/app/api/register/route.js:11 | a body with every field present passes the check exactly when its document meets the `User` schema's `required` constraints |
| RegisterRoute.EmailTaken | src/app/api/register/route.js:19 | `findOne({email})` finds a user exactly when the email is among the stored emails, compared as sent |
| RegisterRoute.NewUser | src/app/api/register/route.js:26-34 | the stored user is complete, its password is not the plaintext, and its email and role are lower-case |
| RegisterRoute.CaseVariantSlipsPastLookup | src/app/api/register/route.js:19-36 | an email that differs from a stored one only in letter case is not found by the lookup but clashes with the unique index |
| RegisterRoute.UserTable.Register | src/app/api/register/route.js:6-47 | 400 for a falsy field, 400 for an exact email match, 500 for an index clash, otherwise 201 with the new user appended; a case variant of a taken email gets 500 |
| RegisterRoute.UserTable.RegisterNormalized | src/app/api/register/route.js:19-24 | with the lookup on the lower-cased email, a taken email always gets 400; 500 happens exactly when that email is free and the new document still clashes with a unique index |
| ManagerSchema.HashedPasswordMatches | models/manager.js:56-58 | with the stand-in hash, after the password p is hashed, a candidate matches exactly when it equals p |
| ManagerSchema.ManagerDocument.constructor | models/manager.js:6-38 | the `trim` and `lowercase` setters and the `role` default are applied, and the password counts as modified |
| ManagerSchema.ManagerDocument.SetPassword | models/manager.js:45 | assigning a password different from the stored one stores it and marks it as modified; assigning the stored value changes nothing (Mongoose compares before it marks a path); the other fields are left alone |
| ManagerSchema.ReassignStoredPassword | models/manager.js:44-58 | a saved manager whose stored password is assigned back to it, then saved again, still accepts its original password p: the second save does not hash again |
| ManagerSchema.ManagerDocument.Save | models/manager.js:44-53 | validation runs first, with UTF-16 lengths; on success the password is hashed exactly when it was modified, the modified flag is cleared, and the stored password is the hash of the one last assigned |
| ManagerSchema.ManagerDocument.ComparePassword | models/manager.js:56-58 | on a saved document, a candidate matches exactly when it is the password last assigned |
| ManagerSchema.CreateSaveTwice | models/manager.js:44-58 | a manager saved twice with password p still accepts p: the second save does not hash the password again |
| AdminSchema.NewAdmin | models/admin.js:5-37 | creation succeeds exactly when the fields meet their UTF-16 length bounds and patterns after the setters; the password is stored as given |
| AdminSchema.AnyRoleAccepted | models/admin.js:30-37 | any trimmed role name of 3 to 50 code units is accepted; there is no role enum |
| Middleware.Guard | middleware.js:9-17 | manager pages: no token goes to login, a token without the exact role `manager` goes to unauthorized, and everything else passes |
| Middleware.Matched | middleware.js:20-22 | the matcher `/manager/:path*` selects `/manager` and every path below it, and only paths that start with `/manager` |
| Middleware.MatchedPathsNeedManagerToken | middleware.js:9-22 | on every path the matcher selects, a request passes exactly when its token has role `manager` |
| Middleware.RoleCaseMismatch | middleware.js:13-15 | a session with role "Manager" is refused by the guard but passes the API's manager check |

## Findings

| source | as written | input that shows it | evidently intended | confidence | as-written member | corrected member |
|---|---|---|---|---|---|---|
| src/app/api/register/route.js:19-36 | the duplicate check looks up the email as sent, but the email is stored lower-cased, so the unique index rejects the insert instead | a user `bob@x.io` is stored; a second registration sends `Bob@x.io` and gets 500 "Internal Server Error" instead of 400 "Email already in use." | look up `email.toLowerCase()`, so a taken email always gets 400 | not executed | RegisterRoute.UserTable.Register | RegisterRoute.UserTable.RegisterNormalized |
| src/app/api/orders/route.js:108-122 | PUT deletes only the top-level keys `status`, `approved_by` and `approved_at`, and passes the rest of the body to `findByIdAndUpdate`, which applies update operators and runs no validator | the owner of a pending order sends PUT with `{"$set": {"status": "approved", "approved_by": null}}`; the order becomes approved with no approver, and accountants list it | drop the `$`-prefixed operators too, so an owner can never change status or approval | not executed | OrdersRoute.OperatorBypassesStrip | OrdersRoute.OrderStore.PutFieldsOnly |

The as-written behaviour of the first row is stated by the last `ensures`
of `RegisterRoute.UserTable.Register` and by the lemma
`RegisterRoute.CaseVariantSlipsPastLookup`. The as-written behaviour of the
second row is `OrdersRoute.OrderStore.Put`, whose contract applies the body
with its operators, and the lemmas `OrdersRoute.OperatorBypassesStrip` and
`OrdersRoute.IncrementNotIdempotent`.

## Left out

- The React components, the database connection, the custom server and the authentication configuration are not part of this model. A session is given as a value.
- `getServerSession` and `getToken` are not modelled. A session or token is a parameter.
- `mongoose.Types.ObjectId.isValid` is modelled only for 24-digit hexadecimal strings, in either letter case. Its other accepted forms (12-byte strings, ObjectId instances) are left out.
- `parseInt` on text that is not a number gives `NaN`. This is left out: `page` and `limit` are integers or absent.
- Driver and connection failures are left out. These are the 500 replies of the `catch` blocks. The model only covers validation errors and duplicate keys.
- Mongoose casting of JSON values of the wrong type (a number as `username`, a string as `price`) is left out. Body fields have their schema types.
- OrdersRoute.OrderStore.Put: of the update operators, only `$set` and `$inc` are modelled. `$unset`, `$rename`, `$push` and the others are left out.
- OrdersRoute.OrderStore.Put: no validator runs on an update, so a `$set` could store a status outside the enum, or a text outside its length bounds. The model's status type cannot hold an unknown status. The setters do run, and the model applies `trim` to updated text.
- OrdersRoute.OrderStore.Put: a JSON `null` for `username`, `name`, `description`, `quantity` or `price`, as a plain key or under `$set`, is stored as `null` by the source, because no `required` validator runs on an update and `trim` passes a non-string through. The model reads such a key as absent and keeps the old value. In the source, after `{"username": null}` the owner's PUT and DELETE get 403 and the owner's GET no longer lists the order; the model does not show this.
- OrdersRoute.ApplyUpdate: Mongoose folds top-level keys into `$set`, and a top-level key wins over the same key under `$set`; the model does the same. A body that names a path under both `$set` and `$inc` is applied `$set` first; MongoDB refuses such a body with a conflict error, which would be a 500.
- OrdersRoute.OrderStore.Patch: stores the session's user id as `approved_by` without the ObjectId cast. A cast failure would be a 500.
- OrdersRoute.Session: a session without a `name` or `role` (`?.` giving `undefined`) is not modelled. Both are strings.
- The clock is a counter that advances on every insert or update. Two writes in the same millisecond, which the real clock allows, are not modelled.
- Concurrency is left out. Handlers run one at a time, and the `find`/`countDocuments` pair in GET reads one state.
- OrdersRoute.FailureText: gives only the leading words of Mongoose's error messages. The rest of a message (the failing paths, the index and key of a duplicate) is left out.
- Strings.ToLower: lower-cases ASCII letters only. JavaScript's full Unicode case mapping is not modelled.
- Strings.Hash: bcrypt's random salt and cost factor are left out. bcrypt digests are always 60 characters, so "longer than the password" holds only for the stand-in.
- Strings.HashInjective: bcrypt reads only the first 72 bytes of a password, so two passwords that agree on those bytes have matching hashes. The stand-in is injective.
- ManagerSchema.HashedPasswordMatches: holds for the stand-in. With bcrypt, a candidate that agrees with p on its first 72 bytes also matches.
- ManagerSchema.ManagerDocument.ComparePassword: promises only for a saved document, and only up to bcrypt's 72-byte limit. On an unsaved document the stored password is plaintext, and bcrypt's answer on a plaintext is not modelled.
- The unique indexes of the `Manager` and `Admin` collections are not modelled. Only single documents of those collections are.
- Mongoose's `timestamps` bookkeeping on `User`, `Manager` and `Admin` documents is not modelled.
