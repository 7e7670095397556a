# Purchase authorization for a course-selling backend

A Dafny model of the purchase-authorization path of an Express/MongoDB backend that sells
video courses and takes payment through Razorpay. Four pieces of `server.js` carry the logic,
and each is modelled here with a contract:

- **Bearer extraction** (`authMiddleware`). A missing header, or one that does not start with
  `"Bearer "`, gets 401. Otherwise the token is field 1 of the header split at every space.
  That token goes to the JWT library, which is passed in as a function.
- **Access guard** (`GET /api/courses/:id/content`). A course that does not exist gives 404.
  An existing course without a matching purchase record gives 403. Otherwise the route returns
  the course's modules, unfiltered. This guard is not the only way to the modules: the public
  catalog routes and the create-order route also return them (see the weaknesses below).
- **Order pricing** (`POST /api/payment/create-order`). The route selects the catalog courses
  whose id was requested, sums their prices, and asks the provider for an order of 100 times
  that sum in paise.
- **Payment verification and grant** (`POST /api/payment/verify`). The HMAC-SHA256 hex digest of
  `orderId + "|" + paymentId` must equal the submitted signature. After that, each client-supplied
  course id that the user does not yet own is appended to `purchasedCourses`, in place.

Modules, one per component:

| file | module | content |
|---|---|---|
| `wrappers.dfy` | `Wrappers` | `Option` |
| `text.dfy` | `Text` | `startsWith`, `split` with a one-character separator, and its inverse `Join` |
| `bearer.dfy` | `Bearer` | header parsing and the middleware outcome |
| `catalog.dfy` | `Catalog` | courses, `findOne` by id, and the five seeded courses as a fixture |
| `ledger.dfy` | `Ledger` | purchase records, the `some` check, the grant specification, and the `User` class with the grant loop |
| `access.dfy` | `Access` | the content route |
| `pricing.dfy` | `Pricing` | selection, amount, and the create-order route |
| `payment.dfy` | `Payment` | the signed message and the verify route |

Foreign calls are parameters of function type:
- `hmacSha256Hex(key, message)` stands for `crypto.createHmac(...).update(...).digest("hex")`;
- `verifyJwt(token)` stands for `jwt.verify`;
- `createAtProvider(options)` stands for `razorpay.orders.create`, with `None` for a failure.

The clock (`new Date()`, `Date.now()`) is a `now` parameter. The user document returned by
`User.findById` is a `User` object, or `null` when the lookup finds nothing.

The model follows the code, including these weaknesses:
- Order creation does not reject an empty or all-unknown selection. The provider is asked for an
  order of 0 (`Pricing.EmptySelectionReachesProvider`).
- Order creation answers with the full course documents, modules and video references included,
  for every requested catalog course, without any ownership check. A caller the content route
  refuses with 403 can read the same modules this way (`Pricing.CreatedRevealsModules`,
  `Access.GuardBypassedByCreateOrder`).
- The public catalog routes `GET /api/courses` and `GET /api/courses/:id` (server.js:122-131)
  return whole course documents, `modules` and every video reference included, without
  authentication. A caller with no token at all can read what the content route guards. These
  routes are outside the modelled core.
- Verification grants the course ids the client submits. It does not check them against the paid
  order or the catalog (`Ledger.GrantedCovers` holds for any ids).
- The content route checks existence (404) before ownership (403).
- A missing user during verification is not a distinct error. It leads to the generic 500
  (`VerificationFailed`), because dereferencing `null` throws inside the route's `try`.

## Model

| member | source | states |
|---|---|---|
| `Text.IndexOf` | server.js:71 | the result is the first position of the separator, or the length when the separator is absent |
| `Text.IndexOfAt` | server.js:71 | a position holding the separator with no separator before it is the one `IndexOf` returns |
| `Text.Split` | server.js:71 | `split` yields at least one piece, and the first piece runs up to the first separator |
| `Text.JoinSplit` | server.js:71 | joining the pieces of a split with the separator restores the string (round trip) |
| `Text.SplitPiecesFree` | server.js:71 | no piece of a split contains the separator |
| `Text.StartsWith` | server.js:69 | `startsWith`: the string begins with the prefix |
| `Bearer.ExtractBearer` | server.js:68-71 | no token iff the header is missing or lacks the case-sensitive `"Bearer "` prefix; otherwise the token is space-free and directly follows the prefix, up to the end of the header or the next space |
| `Bearer.BearerField` | server.js:69-71 | after the prefix check, the split has a field 1, and it is the text between the first and second space |
| `Bearer.Authenticate` | server.js:67-79 | Unauthorized iff the header check fails; InvalidToken iff the JWT library rejects the extracted token; otherwise the claims are the ones the library returned for that token |
| `Bearer.LowerCaseSchemeRefused` | server.js:69 | a header starting with lower-case `bearer ` is refused |
| `Bearer.DoubleSpaceGivesEmptyToken` | server.js:71 | `"Bearer  x"` (two spaces) yields the empty token |
| `Bearer.TrailingFieldIgnored` | server.js:71 | for a space-free token, text after the next space does not affect the extracted token |
| `Catalog.FindCourse` | server.js:136 | None iff no course has the id; otherwise the course is in the catalog and carries that id |
| `Catalog.FindUnique` | server.js:136 | with unique ids, looking up the id at position i gives the course at position i |
| `Catalog.SeedCatalog` | seed.js:34-155 | the seeded catalog has five courses with the unique ids 1 to 5 |
| `Ledger.HasAccess` | server.js:140 | true iff some purchase record carries the course id |
| `Ledger.GrantOne` | server.js:193-200 | one loop step: append a record unless the course is owned; pinned down by `GrantedAppends` and `GrantedCovers` |
| `Ledger.Granted` | server.js:192-201 | the whole grant, ids processed left to right; pinned down by `GrantedAppends`, `GrantedCovers`, `GrantedKeepsUnique` and `GrantedIdempotent` |
| `Ledger.AccessPersists` | server.js:192-201 | a course owned in a list is owned in every list that extends it |
| `Ledger.GrantedAppends` | server.js:191-201 | the old list is a prefix of the new one; each appended record carries the submitted order id, payment id and the single `now`, and is for a requested course the list did not already hold |
| `Ledger.GrantedCovers` | server.js:192-201 | after the grant every requested id has a record, and every course owned before is still owned |
| `Ledger.GrantedKeepsUnique` | server.js:193-194 | at most one record per course before implies at most one after, even when ids repeat in the request |
| `Ledger.GrantOwnedIsNoop` | server.js:193 | a grant of courses that are all already owned leaves the list unchanged |
| `Ledger.GrantedIdempotent` | server.js:192-201 | granting the same ids a second time leaves the list exactly as after the first grant, whatever ids and time the second call carries |
| `Ledger.GrantedConcat` | server.js:192-201 | two grants in a row equal one grant of the concatenated id lists |
| `Ledger.User.Grant` | server.js:190-201 | the loop leaves `purchasedCourses` equal to the grant specification applied to the old list; every requested id is owned afterwards; uniqueness per course is preserved |
| `Access.GetContent` | server.js:134-145 | NotFound iff no course has the id; Forbidden iff the course exists and no record carries the id; the modules are returned only to an owner, and they are those of a catalog course with that id |
| `Access.OwnerGetsModules` | server.js:136-144 | with unique ids, an owner of the course at position i receives exactly that course's modules |
| `Access.ContentPersists` | server.js:140-144 | once content is released, it stays released as the purchase list grows |
| `Access.GrantedCoursesReleased` | server.js:192-201 | after a grant, every requested course that the catalog lists is released |
| `Access.NewUserForbidden` | server.js:136-141 | a user with no purchases is refused seeded course 1 with Forbidden |
| `Access.GuardBypassedByCreateOrder` | server.js:140-166 | a caller refused with Forbidden for a course still receives its modules from a successful order creation for it |
| `Access.PaidUserGetsContent` | server.js:136-144 | after a grant of `[1]`, the user receives the modules of seeded course 1 |
| `Pricing.SelectCourses` | server.js:156 | a course is selected iff it is in the catalog and its id was requested; with unique catalog ids each selected course appears once |
| `Pricing.TotalPrice` | server.js:157 | the `reduce` sum of prices; pinned down by `NewIdAddsPrice`, `UnknownIdIgnored` and `SelectionDependsOnSetOnly` |
| `Pricing.OrderAmount` | server.js:156-157 | the price of the selection; pinned down by `NewIdAddsPrice`, `UnknownIdIgnored`, `SelectionDependsOnSetOnly` and `NoKnownIdsCostNothing` |
| `Pricing.SelectionDependsOnSetOnly` | server.js:156-157 | requests with the same set of ids select the same courses and cost the same, so duplicates count once |
| `Pricing.UnknownIdIgnored` | server.js:156-157 | an id absent from the catalog changes neither the selection nor the amount |
| `Pricing.NewIdAddsPrice` | server.js:157 | requesting one more catalog course, not yet requested, adds exactly its price |
| `Pricing.NoKnownIdsCostNothing` | server.js:156-157 | a request with no catalog ids costs 0 |
| `Pricing.TwoCourseOrder` | server.js:156-157 | two distinct catalog courses cost the sum of their prices |
| `Pricing.SeedAmountOfOneAndThree` | server.js:156-157 | seeded courses 1 and 3 cost 2998 |
| `Pricing.CreateOrder` | server.js:153-171 | the provider receives 100 times the amount in INR with the clock value; its failure gives ProviderError; a success returns its order, exactly the selected courses (each once when catalog ids are unique) and an amount equal to the sum of their prices |
| `Pricing.CreatedRevealsModules` | server.js:156-166 | a successful order creation returns, for every requested catalog course, a course document carrying its modules, with no ownership check |
| `Pricing.EmptySelectionReachesProvider` | server.js:155-165 | an empty or all-unknown selection is not refused: it yields an order of amount 0 whenever the provider accepts one |
| `Pricing.SeedOrderOfOneAndThree` | server.js:159-165 | for seeded courses 1 and 3, the amount is 2998 and the provider is asked for 299800 |
| `Payment.SignedMessage` | server.js:180 | the text signed is the order id, a vertical bar and the payment id; pinned down by `MessageRoundTrip` |
| `Payment.MessageRoundTrip` | server.js:180 | when the order id has no vertical bar, the signed message parses back to the exact pair |
| `Payment.MessageShiftsBar` | server.js:180 | moving a vertical bar between the order id and the payment id gives the same signed message |
| `Payment.Verify` | server.js:176-209 | InvalidSignature iff the digest of `orderId + "|" + paymentId` differs from the submitted signature; no list changes unless Verified; Verified means the list is the grant of the client's ids applied to the old list, and all of those ids are owned |

## Left out

- HTTP and Express plumbing (routing, status codes as numbers, JSON bodies, CORS, `app.listen`). Outcomes are result datatypes.
- MongoDB and Mongoose: the connection, schemas and queries. The catalog is a sequence; the user is an in-memory `User`. A failing `user.save()` (a 500 after the in-memory list has changed) is not modelled, and neither is the atomicity of the save.
- HMAC-SHA256, JWT signing and verification, and bcrypt are foreign libraries. HMAC and JWT verification are function parameters. A constant-time comparison cannot be expressed, and the source does not use one.
- The register and login routes and token issuance: store, bcrypt and JWT glue outside this core.
- The public catalog routes (`GET /api/courses`, `GET /api/courses/:id`) are outside the modelled core; they return the modules unauthenticated.
- The provider's order creation is a function parameter. The receipt string `"receipt_" + Date.now()` is represented by the clock value only.
- Concurrency: the lost update between two simultaneous verifications for one user is outside a sequential model.
- JSON type coercion: `Number(req.params.id)` giving NaN, string-against-number `===` on client ids, and a `courseIds` that is not an array. Course ids are `int`.
- Prices are JavaScript numbers. The model uses unbounded integers, which is exact for the catalog's whole-rupee prices.
- The content route when the authenticated user no longer exists. The source dereferences `null` outside any `try`, so the rejection escapes the handler, and what follows depends on the framework and runtime versions, which the source does not fix. `Access.GetContent` takes the user's purchase list directly.
- Course descriptive metadata (slug, title, level, rating, lesson titles and durations) is omitted. A lesson keeps only its video reference.
