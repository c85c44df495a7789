# Eclipse shop backend — a verified model of its request logic

This project models the core of the Eclipse shop backend, an Express and MongoDB
service. The model covers:

- session checking in the `authenticate` and `requireRole` middleware;
- registration and login;
- the profile update, which bumps an account's token version on a password change;
- the cart endpoints: the upsert protocol, removal, and the read-side join with
  products plus the totals;
- the product catalogue: creation and update with unique slug probing, deletion,
  the public lookup by slug, and the paginated, filtered listing.

Each MongoDB collection is an in-memory map inside a class:

- `Users.UserTable`
- `CartRoutes.CartStore`
- `ProductRoutes.ProductStore`

A handler that writes to a collection is a method of that class. Its contract
states the new state and the response. Handlers that only compute something
(`authenticate`, `requireRole`, cart reconciliation, `computeTotals`, the
listing) are functions.

Four libraries and one setting are parameters rather than code:

- `jsonwebtoken` is a pair of functions, `Jwt.Codec`. The only assumption made
  about it is `Jwt.Sound`: with a non-empty secret, a token it signs verifies
  back to its claims, and is a non-empty string with no white space at its
  ends (so it survives the `trim` in `authenticate`).
- `bcrypt`:
  - its `compare` is a function parameter;
  - the digest `hash` returns is a value parameter.
- `slugify` and the `isEmail` check are function parameters.
- The `JWT_SECRET` setting is a string parameter. `""` stands for both unset and
  empty, since the code tests it for truthiness.

Other modelling choices:

- Prices and quantities are integers, for example cents.
- Mongo ids are natural numbers. A request id that fails `isMongoId` is `None`.
- A request field is `Absent`, `Given(v)` or `Malformed` (`Common.Input`). This
  keeps apart the three things the validators tell apart:
  - `undefined` passes an `.optional()` rule;
  - a value of the right type is checked against its range;
  - a value of the wrong type, or `null`, fails.

The modules follow the source files:

- `Common`, `Text` and `Models` hold shared types, JavaScript `trim`, and the
  schema invariants.
- `Jwt` covers `utils/jwt.js`.
- `AuthMiddleware` covers `middleware/auth.js`.
- `Users` is the users collection.
- `AuthRoutes`, `UserRoutes`, `CartRoutes`, `ProductRoutes` and
  `ProductListing` cover the route files.
- `Sessions` holds the properties that link several files, such as "a password
  change retires every older token".

## Model

| member | source | states |
|---|---|---|
| Text.Trim | backend/src/middleware/auth.js:7 | `String.prototype.trim`: the result has no ECMAScript white space at either end and is exactly the slice between the leading and the trailing white space |
| Text.TrimIdempotent | backend/src/routes/user.routes.js:89-90 | trimming an already trimmed name or title changes nothing |
| Text.TrimEmptyIffBlank | backend/src/routes/product.routes.js:210 | `title.trim()` is empty (falsy) exactly when the title is all white space |
| Text.DecimalInjective | backend/src/routes/product.routes.js:48 | distinct suffix numbers render as distinct digit strings in the template literal |
| Models.UserSchemaValid | backend/src/models/User.js:5 | the user schema's name constraint: trimmed by its setter, then 2 to 80 characters |
| Models.VersionNumber | backend/src/middleware/auth.js:24-25 | a version that is present is kept; a missing one reads as 0 |
| Models.ProductSchemaValid | backend/src/models/Product.js:5-9 | the product schema: a trimmed, required (non-empty) title, a required slug, price and stock at least 0 |
| Jwt.Sound | backend/src/utils/jwt.js:7-10 | the one assumption about jsonwebtoken: under a non-empty secret, a token it signs verifies back to its claims and is a non-empty string with no white space at its ends |
| Jwt.SignJwt | backend/src/utils/jwt.js:3-11 | a session comes back exactly when the secret is non-empty (otherwise it throws); it carries the given claims and the library's token; under `Sound`, the token verifies to those claims |
| AuthMiddleware.Status | backend/src/middleware/auth.js:8-28 | the status of each refusal: missing token 401, missing secret 500, bad or expired token 403, unknown user 401, stale token 401 |
| AuthMiddleware.BearerToken | backend/src/middleware/auth.js:6-7 | empty unless the header starts exactly with `"Bearer "`; after that prefix it is exactly the rest of the header, trimmed, so a non-empty token has no white space at its ends |
| AuthMiddleware.BearerTokenOfHeader | backend/src/middleware/auth.js:7 | round trip: `"Bearer " + t` yields `t` back for any token with no white space at its ends |
| AuthMiddleware.Authenticate | backend/src/middleware/auth.js:4-36 | refusals in their fixed order: missing token 401 (iff no token), missing secret 500 (iff token but no secret), bad token 403 (iff verify fails); acceptance implies a known subject with equal versions, and `req.user` is the payload with `tv` set to the account's version |
| AuthMiddleware.AcceptIffVersionsMatch | backend/src/middleware/auth.js:24-29 | for a verified token of a known account: accepted iff the two versions, read as numbers, are equal; otherwise the refusal is "stale token" |
| AuthMiddleware.UnknownSubjectRefused | backend/src/middleware/auth.js:21-22 | a verified token whose subject is not stored is refused with 401, whatever its version |
| AuthMiddleware.RequireRole | backend/src/middleware/auth.js:38-41 | admits iff a user is present and its role is listed; the default empty list admits nobody |
| AuthMiddleware.AdminGate | backend/src/routes/product.routes.js:27-28 | behind `authenticate` and `requireRole(["admin"])`, a request goes on iff it is accepted with an admin role claim |
| AuthRoutes.StrongPassword | backend/src/routes/auth.routes.js:12-17 | at least 8 characters, with an upper-case letter, a lower-case letter and a digit |
| AuthRoutes.RegisterRulesHold | backend/src/routes/auth.routes.js:9-18 | `registerRules`: a string name of at least 2 characters (untrimmed, no maximum), an email `isEmail` accepts, a strong password |
| AuthRoutes.LoginRulesHold | backend/src/routes/auth.routes.js:20-23 | `loginRules`: an email `isEmail` accepts and a string password of at least 8 characters |
| AuthRoutes.ErrorStatus | backend/src/routes/auth.routes.js:29-69 | validation 400, email taken 409, bad credentials 401, a thrown error 500 |
| AuthRoutes.StrongPassOnePasses | backend/tests/auth.test.js:13 | the test password `StrongPass1` meets the register password rule |
| AuthRoutes.Register | backend/src/routes/auth.routes.js:25-55 | 400 iff the rules fail, with no lookup; 409 iff the email is taken, with the table unchanged; success iff the rules pass, the email is free, the trimmed name passes the schema and a secret is set; on success exactly one user is added (role user, version 0) and the token is signed with `tv: 0`; a name the schema refuses gives 500 with nothing stored; a missing secret gives 500 after the user is stored under a fresh id |
| AuthRoutes.Login | backend/src/routes/auth.routes.js:57-79 | 400 on a rule failure; an unknown email and a wrong password both get the same `InvalidCredentials`; a matching account logs in iff a secret is set, and gets 500 without one; its token carries id, role, email and the current version (missing read as 0) |
| Users.UserTable.EmailTaken | backend/src/routes/auth.routes.js:40 | some stored user has this email (`User.findOne({ email })` finds one) |
| Users.UserTable.FindByEmail | backend/src/routes/auth.routes.js:40 | returns the owner of the email iff some stored user has it |
| Users.UserTable.Create | backend/src/models/User.js:3-12 | the name is trimmed and the defaults applied (role user, version 0); a schema failure or a taken email stores nothing; otherwise the record is stored under a fresh id; the email stays unique |
| Users.UserTable.Save | backend/src/routes/user.routes.js:107 | writes the record iff it passes the schema and no other account holds its email; otherwise nothing changes |
| UserRoutes.FieldTruthy | backend/src/routes/user.routes.js:78 | JavaScript truthiness of a body field: missing is false, a string is truthy iff non-empty, any other value keeps its own truthiness |
| UserRoutes.ErrorStatus | backend/src/routes/user.routes.js:72-99 | validation 400, nothing to update 400, unknown account 404, current password required 400, wrong current password 401, a thrown error 500 |
| UserRoutes.ProfileRulesHold | backend/src/routes/user.routes.js:37-59 | `updateProfileRules`: each field optional (missing passes, `null` fails); a name of 2 to 80 characters, a current password of at least 8, a strong new password; `confirmPassword`, when sent, equals a truthy new password |
| UserRoutes.NothingRequested | backend/src/routes/user.routes.js:76-78 | no name and no truthy `newPassword`, `confirmNewPassword` or `currentPassword` |
| UserRoutes.NameAccepted | backend/src/routes/user.routes.js:89 | a string name that is still at least 2 characters long once trimmed |
| UserRoutes.Updated | backend/src/routes/user.routes.js:88-105 | the new name only if it is still 2 characters long once trimmed (stored trimmed); on a truthy new password, the new digest and version old + 1 (missing read as 0); without one, password and version unchanged; email and role always kept |
| UserRoutes.UpdatedKeepsSchema | backend/src/routes/user.routes.js:37-41 | a body passing the rules never makes a valid record fail the user schema, so the save cannot throw |
| UserRoutes.PasswordChangeBumpsVersion | backend/src/routes/user.routes.js:104 | a password change strictly increases the version |
| UserRoutes.UpdateProfile | backend/src/routes/user.routes.js:62-118 | 400 on rule failure; 400 "nothing to update"; 404 for an unknown account; 400 for a new password without the current one; 401 iff the current password does not match; each of these leaves the table unchanged; a request past every check is saved as `Updated(...)` and succeeds iff a secret is set, its token carrying the saved version; the handler called on its own gives 500 after the save when the secret is missing |
| Sessions.AuthenticatedProfileUpdate | backend/src/routes/user.routes.js:62 | the route as mounted: a refusal by `authenticate` touches nothing; past it the handler never answers 500, as `authenticate` has already required the secret; a handler refusal leaves the users unchanged; a request past every check for the token's subject succeeds and stores `Updated(...)` |
| Sessions.IssuedTokenIsAccepted | backend/src/middleware/auth.js:16-31 | a token the server signed, sent as `Bearer <token>`, is accepted while its version equals the account's, and `req.user` is exactly the signed claims |
| Sessions.PasswordChangeRevokesOlderTokens | backend/src/routes/user.routes.js:104 | after a password change, every token for that account whose version is at most the old one is refused as stale |
| Sessions.OtherSessionsUnaffected | backend/src/middleware/auth.js:21-31 | updating one account leaves the answer to every request that is not for that account exactly as it was |
| Sessions.NameChangeKeepsSessions | backend/src/routes/user.routes.js:89-91 | an update with no new password leaves the answer to every request, including `req.user`, exactly as it was |
| Sessions.RegisterThenLogIn | backend/tests/auth.test.js:9-26 | registering a fresh account, logging in with the same password, and calling the profile with the login token all succeed, and the profile shows the registered email |
| Sessions.ChangePasswordThenAuthenticate | backend/src/routes/user.routes.js:94-109 | a password change with valid fields and the right current password succeeds; after it, the returned token is accepted and a token issued before the change is refused as stale |
| CartRoutes.ComputeTotals | backend/src/routes/cart.routes.js:11-14 | the subtotal is the sum of price × qty over the lines (the left fold `reduce` performs), and the total equals it |
| CartRoutes.ReduceIsSum | backend/src/routes/cart.routes.js:12 | the `reduce` left fold from `s` equals `s` plus the sum |
| CartRoutes.SumAppend | backend/src/routes/cart.routes.js:12 | the subtotal of two line lists joined together is the sum of their subtotals |
| CartRoutes.SumNonNegative | backend/src/routes/cart.routes.js:12 | with prices and quantities at least 0, the subtotal is at least 0 |
| CartRoutes.CartSubtotalNonNegative | backend/src/routes/cart.routes.js:44-45 | a well-formed cart priced against schema-valid products answers a subtotal and total of at least 0 |
| CartRoutes.PushAddsItsAmount | backend/src/routes/cart.routes.js:88-91 | appending a line raises the answered subtotal by exactly price × qty for a stored product, and by 0 for a missing one |
| CartRoutes.FirstImage | backend/src/routes/cart.routes.js:39 | `images?.[0] ?? null`: the first image, or none for an empty list |
| CartRoutes.ViewOf | backend/src/routes/cart.routes.js:33-41 | one view line: the product's title, price, first image and slug when found; "Unknown Product", 0, null, null otherwise; id and qty copied |
| CartRoutes.Reconcile | backend/src/routes/cart.routes.js:32-42 | exactly one view line per stored line, in order, with id and qty copied; a found product supplies title, price, first image and slug; a missing one gives "Unknown Product", 0, null, null |
| CartRoutes.Respond | backend/src/routes/cart.routes.js:44-45 | the response items are the reconciled lines, with their subtotal and an equal total |
| CartRoutes.EmptyCartNeedsNoLookup | backend/src/routes/cart.routes.js:22 | an empty list of lines answers `{items: [], subtotal: 0, total: 0}` whatever the products hold |
| CartRoutes.ReconcileIgnoresActive | backend/src/routes/cart.routes.js:26-27 | deactivating a product changes no cart view (the lookup has no `active` filter) |
| CartRoutes.DeletedProductKeepsLines | backend/src/routes/cart.routes.js:37-40 | deleting a product turns exactly its lines into sentinel lines and leaves every other line as it was |
| CartRoutes.WellFormed | backend/src/models/Cart.js:3-9 | the cart invariant: every qty at least 1 (`min: 1`) and at most one line per product |
| CartRoutes.Find | backend/src/routes/cart.routes.js:81 | the index of the first line for the product, or none when no line has it |
| CartRoutes.Pull | backend/src/routes/cart.routes.js:75-79 | no line for the product is left, and a list without one is unchanged |
| CartRoutes.PullMembers | backend/src/routes/cart.routes.js:137-141 | a line survives the pull iff it was there and is for another product |
| CartRoutes.PullRemovesOne | backend/src/routes/cart.routes.js:137-141 | on a well-formed cart, pulling removes exactly the product's one line and keeps the rest in order |
| CartRoutes.PullKeepsWellFormed | backend/src/models/Cart.js:3-9 | pulling keeps one line per product and every qty at least 1 |
| CartRoutes.ReplaceKeepsWellFormed | backend/src/routes/cart.routes.js:81-86 | overwriting a present line's qty with a positive one keeps the invariant |
| CartRoutes.PushKeepsWellFormed | backend/src/routes/cart.routes.js:88-91 | appending a line for an absent product with a positive qty keeps the invariant |
| CartRoutes.SetQty | backend/src/routes/cart.routes.js:75-92 | qty 0 pulls the product; a present line is overwritten in place; an absent product is appended at the end |
| CartRoutes.SetQtyKeepsWellFormed | backend/src/routes/cart.routes.js:75-92 | any qty ≥ 0 keeps productIds unique and every qty ≥ 1 |
| CartRoutes.SetQtyHolds | backend/src/routes/cart.routes.js:81-91 | after a positive set, the product's line holds exactly the qty set |
| CartRoutes.SetQtyOverwrites | backend/src/routes/cart.routes.js:81-86 | setting a then b equals setting b (2 then 3 gives 3, not 5) |
| CartRoutes.SetQtyAsWritten | backend/src/routes/cart.routes.js:75-91 | the handler's own branch choice (only the number 0 removes) agrees with `SetQty` for every number and every non-zero digit string |
| CartRoutes.NumeralZeroStoresZeroQty | backend/src/routes/cart.routes.js:75 | the quantity `"0"` passes the rules and stores a line with qty 0, breaking the `min: 1` invariant |
| CartRoutes.UpsertRulesHold | backend/src/routes/cart.routes.js:53-56 | `upsertRules`: a Mongo id and an integer qty of at least 0 |
| CartRoutes.ActiveProduct | backend/src/routes/cart.routes.js:66 | the product exists and is active |
| CartRoutes.ErrorStatus | backend/src/routes/cart.routes.js:62-67 | validation 400, missing or inactive product 404 |
| CartRoutes.CartStore.Get | backend/src/routes/cart.routes.js:19-49 | answers the reconciled view of the caller's lines; no cart or an empty cart answers the empty view |
| CartRoutes.CartStore.Upsert | backend/src/routes/cart.routes.js:58-121 | 400 on rule failure and 404 for a missing or inactive product (even with qty 0), both with the carts untouched, not even created; success iff rules pass and the product is active; otherwise the cart, created if needed, becomes `SetQty(...)`, the corrected quantity update (the code as written is `SetQtyAsWritten`); the answer is the view of the new cart; the invariant is kept |
| CartRoutes.CartStore.Remove | backend/src/routes/cart.routes.js:125-171 | 400 for a bad id; without a cart, the empty view and nothing created; otherwise the product is pulled and the new view answered |
| CartRoutes.AddTwoSpeakers | backend/tests/cart.test.js:30-43 | adding 2 of a product priced 50 answers qty 2, and reading the cart back gives subtotal 100 |
| ProductListing.ListRulesHold | backend/src/routes/product.routes.js:83-91 | `listRules`: every field optional but of the right type when sent; bounds at least 0, page at least 1, limit from 1 to 50 |
| ProductListing.PageOf | backend/src/routes/product.routes.js:104-109 | `Number(page) || 1`, with the page defaulting to 1 |
| ProductListing.LimitOf | backend/src/routes/product.routes.js:105-110 | `Math.min(Number(limit) || 12, 50)`, with the limit defaulting to 12 |
| ProductListing.PageAndLimitDefaults | backend/src/routes/product.routes.js:104-111 | under the rules, the page is the one asked for (default 1); the limit is the one asked for (default 12), between 1 and 50 |
| ProductListing.PageCount | backend/src/routes/product.routes.js:145 | at least one page; the pages hold every match; the last page is not empty; no matches means one page |
| ProductListing.HasNextIffMoreMatches | backend/src/routes/product.routes.js:152 | `page < pages` iff `page × limit < total` |
| ProductListing.Matches | backend/src/routes/product.routes.js:131-138 | the Mongo filter: the trimmed category when not empty, `active` when given, `price >= min` and `price <= max` when given |
| ProductListing.Filter | backend/src/routes/product.routes.js:131-138 | a product is kept iff it is in the catalogue and meets the category, active and price criteria; no product is kept more often than the catalogue holds it |
| ProductListing.FilterAppend | backend/src/routes/product.routes.js:141 | filtering keeps catalogue order: the matches of two catalogues joined are the matches of the first followed by those of the second |
| ProductListing.NoCriteriaListsEverything | backend/src/routes/product.routes.js:131-132 | with no criteria the whole catalogue is listed, inactive products included |
| ProductListing.WindowStart | backend/src/routes/product.routes.js:111 | `skip = (page - 1) * limit`, clipped to the number of matches |
| ProductListing.Window | backend/src/routes/product.routes.js:141 | at most `limit` items, taken consecutively from `(page − 1) × limit`; a full page when enough matches remain |
| ProductListing.ListProducts | backend/src/routes/product.routes.js:93-159 | 400 iff the rules fail; otherwise total = number of matches, page and limit as defaulted, `pages` from `PageCount`, `hasNext` iff `page < pages`, `hasPrev` iff `page > 1`, and the items are that page's window |
| ProductListing.HasNextIffMatchesBeyond | backend/src/routes/product.routes.js:152-153 | in a listing, `hasNext` holds iff matches lie beyond the current page |
| ProductListing.ListedWithinPriceBounds | backend/src/routes/product.routes.js:134-138 | every listed item is in the catalogue and meets the criteria: price ≥ min when min is given, ≤ max when max is given |
| ProductListing.WindowHoldsIndex | backend/src/routes/product.routes.js:111 | match `i` is item `i % limit` of page `i / limit + 1` |
| ProductListing.EveryMatchOnItsPage | backend/src/routes/product.routes.js:109-111 | paging reaches every match: the listing of page `i / limit + 1` holds match `i` at position `i % limit` |
| ProductRoutes.Candidate | backend/src/routes/product.routes.js:44-48 | the k-th slug the loop tries: `base` for k = 0, then `${base}-${k}` |
| ProductRoutes.CandidateInjective | backend/src/routes/product.routes.js:48 | the probing loop never tries the same slug twice: `base`, `base-1`, `base-2`, … are distinct |
| ProductRoutes.FirstFree | backend/src/routes/product.routes.js:43-49 | the first candidate from `k` on that is not taken; every candidate before it is taken; it exists because only finitely many slugs are taken |
| ProductRoutes.FirstFreeIsLeast | backend/src/routes/product.routes.js:43-49 | `FirstFree(…, 0) == n` iff candidate `n` is free and every smaller one is taken |
| ProductRoutes.ErrorStatus | backend/src/routes/product.routes.js:36-79 | validation 400, unknown product 404, a schema refusal 500 |
| ProductRoutes.CreateRulesHold | backend/src/routes/product.routes.js:14-23 | `createRules`: a string title of at least 2 characters after the sanitizer's trim, a price of at least 0, optional stock of at least 0, optional category, description, images and active of the right types |
| ProductRoutes.NewProduct | backend/src/routes/product.routes.js:41 | the created document: trimmed title, the slug and the price; stock 0, description "", images [] and active true unless sent; the category trimmed if sent |
| ProductRoutes.UpdateRulesHold | backend/src/routes/product.routes.js:163-173 | `updateRules`: a Mongo id; optional fields of the right types; a title of at least 2 characters without trimming; price and stock of at least 0 |
| ProductRoutes.Merged | backend/src/routes/product.routes.js:190-220 | each field sent replaces the stored one (the title trimmed by the schema setter); every field not sent keeps its stored value |
| ProductRoutes.EmptyPatchKeepsProduct | backend/src/routes/product.routes.js:190-207 | an update body with no fields leaves the product unchanged |
| ProductRoutes.MergeIdempotent | backend/src/routes/product.routes.js:220 | applying the same update twice equals applying it once |
| ProductRoutes.Retitled | backend/src/routes/product.routes.js:210 | `title && title.trim() && title.trim() !== existing.title` |
| ProductRoutes.ProductStore.SlugTaken | backend/src/routes/product.routes.js:47 | `Product.exists({ slug, _id: { $ne: except } })`: some product other than `except` holds the slug |
| ProductRoutes.ProductStore.UniqueSlug | backend/src/routes/product.routes.js:43-49 | the loop ends with the first free candidate, a slug no other product holds |
| ProductRoutes.ProductStore.Create | backend/src/routes/product.routes.js:25-79 | 400 iff the rules fail; otherwise the slug is the first free candidate for `slugify(title)`; the product is stored with defaults under a fresh id iff `slugify` returned a non-empty slug, else 500; slugs stay unique |
| ProductRoutes.ProductStore.Update | backend/src/routes/product.routes.js:175-250 | 400 on rule failure, 404 for an unknown id; otherwise the product becomes `Merged(...)`; the slug is regenerated (skipping the product's own) only when the trimmed title is non-empty and differs from the stored one; 500 with nothing written iff the schema refuses the result |
| ProductRoutes.ProductStore.Delete | backend/src/routes/product.routes.js:254-286 | 400 for a bad id, 404 for an unknown one; otherwise exactly that product is removed |
| ProductRoutes.ProductStore.FindBySlug | backend/src/routes/product.routes.js:289-300 | returns the product whose slug equals the trimmed parameter iff it exists and is active (the only one with that slug); otherwise 404 |

## Left out

- HTTP plumbing is not modelled: status codes are numbers on error datatypes, and response bodies carry only the modelled fields.
- The 415 checks on the content type (backend/src/routes/product.routes.js:32-34, backend/src/routes/user.routes.js:64-66) are not modelled: the body is taken as parsed JSON.
- The rate limiter on PUT /profile (backend/src/routes/user.routes.js:13-20) is not modelled: it depends on a clock and on request counts.
- GET /profile (backend/src/routes/user.routes.js:22-33) is a plain lookup by id and is not modelled.
- Audit log writes are not modelled: they are best effort, and their failures are swallowed.
- Text search (`q`, backend/src/routes/product.routes.js:117-129) is not modelled. It depends on MongoDB's text index or on regular expressions.
- ProductListing.ListProducts: the sort order (newest first, or by text score) is not modelled. The catalogue is passed in already sorted, and `total` is the number of matches, as `countDocuments` counts them.
- CartRoutes.CartStore.Upsert: applies `SetQty`, the intended behaviour, in which qty 0 removes the line whether it was sent as a number or as the digit string `"0"`. The behaviour as written, where only the number 0 removes and `"0"` stores a line with qty 0, is `CartRoutes.SetQtyAsWritten` (see "## Findings").
- Product ids are compared as values (`Common.Id`). The string comparison `i.productId.toString() === productId` (backend/src/routes/cart.routes.js:81) is not modelled. `toString()` gives lower-case hex, while `isMongoId` and Mongoose's casts also accept upper case. So re-posting a product already in the cart with its id in capitals would miss `existing` and `$push` a second line for it. The unique-product half of the cart invariant holds only for ids in lower case.
- Concurrency is not modelled. Each request runs alone, so the read-then-write races in the cart POST and in slug probing do not arise. For the same reason the duplicate-key 409 branches (backend/src/routes/product.routes.js:73-75, 244-246) cannot be reached, and the model proves the unique slug index is never violated.
- JavaScript numbers are not modelled: prices, quantities and bounds are integers. `Number(...)` conversions and floating-point rounding are outside the model.
- bcrypt hashing and comparison are parameters, and so are `slugify` and `isEmail`.
- jsonwebtoken is a parameter, including token expiry (`JWT_EXPIRES_IN`): expiry is decided inside `verify`. Sessions.IssuedTokenIsAccepted therefore holds only while the token has not expired.
- The `lowercase` setter on the user email (backend/src/models/User.js:6) is not modelled: emails are taken as already lower-case, since Unicode case mapping is outside the model.
- Lengths are counted in code points everywhere. `name.trim().length` (backend/src/routes/user.routes.js:89) counts UTF-16 units, which differs only for characters outside the Basic Multilingual Plane.
- AuthRoutes.Register: a field that is missing and a field that is not a string are both `None`, since every register and login rule refuses both alike. express-validator's conversion of non-string passwords to strings is not modelled.
- Mongoose defaults on read are modelled only through `Models.VersionNumber`: a stored user without `tokenVersion` is read as version 0 wherever a token is signed.
- The `createdBy` field passed to `Product.create` is not modelled: the product schema does not declare it, so Mongoose's strict mode drops it.
- The GET and DELETE error handlers (`next(err)`) are not modelled: no modelled path throws there.
- backend/src/middleware/error.js, app.js, server.js and config/db.js are not part of this model.

## Behaviour followed from the code

Where a plain description of the system and the code differ, the model follows the code:

- In PUT /profile, `confirmPassword` is `.optional()`. It is compared with the new password only when it is sent, so a new password alone passes the rules.
- The "nothing to update" check looks at `confirmNewPassword`, a field no rule validates. It does not look at `confirmPassword`.
- Register checks the untrimmed name for length at least 2, with no maximum. The schema then trims the name and checks 2 to 80 characters. A name such as `" a"` or one longer than 80 characters therefore passes the rules and is refused with 500 after the duplicate check (`AuthRoutes.Register`).
- `signJWT` throws when the secret is missing. Register does not pass through `authenticate`, so it has then already stored the user: the answer is 500, but the write stands. The profile handler would do the same after its save, but PUT /profile runs behind `authenticate`, which answers 500 before the handler when the secret is missing, so on the mounted route that path cannot be reached (`Sessions.AuthenticatedProfileUpdate`).
- The product title is trimmed twice on create: by the validator's sanitizer and by the schema setter. On update it is trimmed only by the schema setter. A title made only of white space therefore passes the update rules, skips slug regeneration and is refused by the schema with 500.
- A title that `slugify` turns into `""` gives an empty slug. The schema's required check then refuses it with 500.
- GET /api/products/:slug never reads the validation result. Only the trim sanitizer has an effect, so a short slug is looked up like any other.
- The listing does not filter on `active` unless asked, so inactive products are listed by default. A category that is empty after trimming is no filter.
- The cart join has no `active` filter: inactive products keep their title and price, and only deleted products get the sentinel values. The POST handler refuses a missing or inactive product before it looks at the quantity, so even a removal with qty 0 fails for such a product.

## Findings

| source | as written | input that shows it | evidently intended | confidence | as-written member | corrected member |
|---|---|---|---|---|---|---|
| backend/src/routes/cart.routes.js:75-91 | The removal branch is chosen by `qty === 0`, but `isInt({ min: 0 })` also accepts the digit string `"0"`. That value reaches `$set`/`$push`, where Mongoose casts it to 0 without running the `min: 1` validator. | POST /api/cart with `{ productId: <an active product already in the cart>, qty: "0" }` | qty 0 in either form removes the line, keeping every stored qty ≥ 1 | medium, not executed | CartRoutes.SetQtyAsWritten, CartRoutes.NumeralZeroStoresZeroQty | CartRoutes.SetQty, CartRoutes.SetQtyKeepsWellFormed |
