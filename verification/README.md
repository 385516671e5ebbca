# itda listings and accounts, modelled in Dafny

This project models the core of the itda real-estate backend. That backend is a marketplace where members register, brokers publish property listings (apartments, villas, shops, …) for sale, jeonse or monthly rent, and visitors search them. The model covers four parts:

- **`MemoryDB`** (`memorydb.dfy`, facts in `memorydb_facts.dfy`): the in-memory database. It keeps two arrays, users and properties, and two id counters. Every method is a pure function from the store to a new store and a return value.
- **`Schema`** (`schema.dfy`): the listing document of `models/Property.js`. It holds the three closed enumerations and their Korean labels, the 18 data fields, and object spread as a field-wise right-biased join. It also holds the schema defaults (status 판매중, views 0, bathrooms 1, empty `images` and `features`, creation time), the save-time validation and the pre-save `updatedAt` hook.
- **`ListingQuery`** and **`PropertyRoutes`** (`listing_query.dfy`, `properties_routes.dfy`, facts in `properties_facts.dfy`): the listing routes.
  - The query string becomes a filter document, and the model states what that filter selects.
  - Results come newest first, and pagination follows the store's skip/limit reading.
  - Each handler is a function from the store and the request to the new store and the reply (status and body).
  - The guard chains are modelled in order: validation (400), then role (403), then save (500) for create; not found (404), then owner (403) for update and delete.
- **`AuthRoutes`** (`auth_routes.dfy`, facts in `auth_facts.dfy`): registration, login and the broker application. Password hashing and comparison are function parameters.

`Optional` supplies the absent-or-present field and JavaScript truthiness. `Seqs` supplies `filter`, `find`, `findIndex`, `splice` and a newest-first sort on sequences. `Http` holds the status codes and reply bodies. `Scenarios` joins the two route families.

The listing routes talk to a document store (`find`, `findById`, `findByIdAndUpdate`, `findByIdAndDelete`, `countDocuments`). The model runs them over the same `Store` record as the in-memory database. Document ids come from the store's counters, and a write replaces, removes or appends exactly as the in-memory methods do.

## Model

| member | source | states |
|---|---|---|
| `Seqs.Filter` | backend/models/MemoryDB.js:52 | `Array.filter`: the result is no longer than the input, holds only elements of the input that pass, and keeps every passing element |
| `Seqs.FilterCounts` | backend/models/MemoryDB.js:52 | the result of `filter` is a sub-multiset of the input in which each passing value occurs exactly as often as in the input |
| `Seqs.FilterMembers` | backend/models/MemoryDB.js:52 | a value is in a filtered array exactly when it is in the array and passes |
| `Seqs.FilterIsSubsequence` | backend/models/MemoryDB.js:52 | a filtered array is an order-preserving subsequence of the original |
| `Seqs.FirstIndex` | backend/models/MemoryDB.js:30 | `findIndex`: the position returned is the first that passes; none is returned exactly when nothing passes |
| `Seqs.First` | backend/models/MemoryDB.js:22 | `find`: the element returned is the first in the array that passes; none is returned exactly when nothing passes |
| `Seqs.ReorderedMembers` | backend/routes/properties.js:181-183 | a permutation has the same members as the sequence it reorders |
| `Seqs.FirstIndexReplaced` | backend/models/MemoryDB.js:30-33 | replacing the first match with another matching element keeps it the first match, so a lookup after an in-place update finds the updated record |
| `Seqs.RemoveAt` | backend/models/MemoryDB.js:99 | `splice(i, 1)`: one element shorter, earlier elements in place, later ones shifted down by one, and the removed element is the only multiset difference |
| `Seqs.SortDesc` | backend/routes/properties.js:48 | `sort({ createdAt: -1 })`: a permutation of its input, in non-increasing key order |
| `Schema.ParsePropertyType` | backend/models/Property.js:12-16 | the property-type enum check accepts exactly the seven labels, and an accepted label maps back to itself |
| `Schema.ParseDealType` | backend/models/Property.js:17-21 | the deal-type enum check accepts exactly the three labels |
| `Schema.ParseStatus` | backend/models/Property.js:59-63 | the status enum check accepts exactly the three labels |
| `Schema.PropertyTypeRoundTrip` | backend/models/Property.js:12-16 | every property type survives label and parse, and there are exactly seven labels |
| `Schema.DealTypeRoundTrip` | backend/models/Property.js:17-21 | every deal type survives label and parse, and there are exactly three labels |
| `Schema.StatusRoundTrip` | backend/models/Property.js:59-63 | every status survives label and parse, and there are exactly three labels |
| `Schema.Join` | backend/models/MemoryDB.js:86-90 | object spread on the data fields: every field the right object carries wins, and every field it lacks is taken from the left object |
| `Schema.ClearLaw` | backend/routes/properties.js:140-144 | a field sent as `null` is gone afterwards, and every other field is as it was |
| `Schema.SpreadThenClear` | backend/routes/properties.js:140-144 | an update body spread over a stored record, with its `null` keys cleared: a `null` key is gone, a key the body carries takes the body's value, and every other key keeps the stored one |
| `Schema.JoinLaws` | backend/models/MemoryDB.js:86-90 | spreading an empty object changes nothing, spreading the same object twice is spreading it once, and successive spreads associate |
| `Schema.Merge` | backend/models/MemoryDB.js:86-90 | `{ ...record, ...update }`: id, views and timestamps come from the update when it carries them and from the record otherwise, and so does every data field |
| `Schema.MergeLaws` | backend/models/MemoryDB.js:86-90 | an update object with no fields leaves a listing unchanged, and applying the same update twice is applying it once |
| `Schema.PreSave` | backend/models/Property.js:79-82 | every save sets `updatedAt` to the save time and changes nothing else |
| `Schema.NewDocument` | backend/models/Property.js:36-75 | a new document keeps every field the data supplies, status and bathrooms included. Only a field the data leaves out takes the schema default: status 판매중, bathrooms 1, empty `images` and `features`, views 0 and createdAt now; every other omitted field stays absent. Its `updatedAt` is the save time |
| `Schema.ValidityIsAboutFields` | backend/models/Property.js:3-63 | validation depends on the data fields alone, never on the id, the view count or the timestamps |
| `Schema.NewDocumentValidity` | backend/models/Property.js:3-63 | a new document passes validation exactly when it has a non-empty title and description, enumerated property and deal types, price, area, rooms and broker, and either no status or an enumerated one |
| `Users.MergeUserLaws` | backend/models/MemoryDB.js:32 | merging an empty update changes no user. A profile-only update keeps the id and creation time and is idempotent |
| `MemoryDB.CreateUser` | backend/models/MemoryDB.js:11-19 | exactly one user is appended and the user counter rises by exactly one. Earlier users and all listings are untouched. The id is the counter unless the data carries its own, and the creation time is fresh |
| `MemoryDB.FindUserByEmail` | backend/models/MemoryDB.js:21-23 | the result is the first stored user with that email; nothing is returned exactly when no stored user has it |
| `MemoryDB.FindUserById` | backend/models/MemoryDB.js:25-27 | the result is the first stored user with that id; nothing is returned exactly when no stored user has it |
| `MemoryDB.UpdateUser` | backend/models/MemoryDB.js:29-36 | the first user with the id is replaced by the merge and every other user and field of the store is kept; with no such user the store is unchanged and null is returned |
| `MemoryDB.CreateProperty` | backend/models/MemoryDB.js:39-49 | exactly one listing is appended and the counter rises by one. The record has views 0 and fresh timestamps whatever the data said. Its data fields are the data's own, with no default status |
| `MemoryDB.FindProperties` | backend/models/MemoryDB.js:51-77 | `findProperties` returns one filter of the stored listings, in stored order, and a listing is in the result exactly when it is stored, on sale and matches every truthy filter field |
| `MemoryDB.ChainIsOneFilter` | backend/models/MemoryDB.js:51-77 | the chain of conditional `filter` calls equals one filter by the accumulated predicate |
| `MemoryDB.ChainSelects` | backend/models/MemoryDB.js:51-77 | the chain of conditional `filter` calls keeps, in stored order, exactly the on-sale listings that satisfy every truthy filter field |
| `MemoryDB.ChainPoint` | backend/models/MemoryDB.js:52-74 | the accumulated predicate is "on sale, and equal or within bound on every truthy filter field" |
| `MemoryDB.FindPropertyById` | backend/models/MemoryDB.js:79-81 | the result is the first stored listing with that id; nothing is returned exactly when no listing has it |
| `MemoryDB.UpdateProperty` | backend/models/MemoryDB.js:83-94 | only the first listing with the id changes, to the merge with a fresh `updatedAt`; length and all else are kept; with no such listing, null and no change |
| `MemoryDB.DeleteProperty` | backend/models/MemoryDB.js:96-102 | the first listing with the id is removed and returned, the others keep their order; with no such listing, null and no change |
| `MemoryDB.FindPropertiesByBroker` | backend/models/MemoryDB.js:104-106 | the result holds only stored listings of that broker, and every such listing of any status is in it |
| `MemoryDB.IncrementPropertyViews` | backend/models/MemoryDB.js:108-115 | the first listing with the id has its views raised by exactly one and nothing else of it or the store changes; with no such listing, null and no change |
| `MemoryDBFacts.InitialValid` | backend/models/MemoryDB.js:3-8 | the empty store with both counters at 1 satisfies the id invariant |
| `MemoryDBFacts.CreateUserKeepsValid` | backend/models/MemoryDB.js:11-19 | creating a user without its own id keeps user ids positive, below the counter and distinct |
| `MemoryDBFacts.CreateUserIdCanCollide` | backend/models/MemoryDB.js:12-14 | because the counter id is written before the spread, data carrying `_id` can create a second user with an existing id |
| `MemoryDBFacts.UpdateUserKeepsValid` | backend/models/MemoryDB.js:29-36 | an update without `_id` keeps the id invariant |
| `MemoryDBFacts.CreatePropertyKeepsValid` | backend/models/MemoryDB.js:39-49 | creating a listing without its own id keeps listing ids positive, below the counter and distinct |
| `MemoryDBFacts.UpdatePropertyKeepsValid` | backend/models/MemoryDB.js:83-94 | an update without `_id` keeps the id invariant |
| `MemoryDBFacts.DeletePropertyKeepsValid` | backend/models/MemoryDB.js:96-102 | a delete keeps the id invariant |
| `MemoryDBFacts.IncrementKeepsValid` | backend/models/MemoryDB.js:108-115 | a view increment keeps the id invariant |
| `MemoryDBFacts.FindUnique` | backend/models/MemoryDB.js:79-81 | with distinct ids, looking up a stored listing's id finds that listing at its own position |
| `MemoryDBFacts.CreateThenFind` | backend/models/MemoryDB.js:39-81 | a listing just created is what a lookup of its id returns |
| `MemoryDBFacts.DeleteThenFind` | backend/models/MemoryDB.js:96-102 | after a delete the id is no longer found |
| `MemoryDBFacts.IncrementTwice` | backend/models/MemoryDB.js:108-115 | two increments raise a listing's views by exactly two and change nothing else of it |
| `MemoryDBFacts.UpdateThenFind` | backend/models/MemoryDB.js:83-94 | after an update the lookup returns the merged record, with fields the update lacks unchanged |
| `MemoryDBFacts.CreateUserThenFindByEmail` | backend/models/MemoryDB.js:11-23 | a user created under an email not yet present is what the email lookup returns |
| `MemoryDBFacts.FalsyFilterSelectsActive` | backend/models/MemoryDB.js:51-77 | a filter whose every field is falsy (missing, empty, or 0) selects exactly the on-sale listings |
| `MemoryDBFacts.EmptyFilterSelectsActive` | backend/models/MemoryDB.js:51 | the default empty filter selects exactly the on-sale listings |
| `MemoryDBFacts.CreatedWithoutStatusIsHidden` | backend/models/MemoryDB.js:39-52 | a listing created without a status changes no `findProperties` result, whatever the filter |
| `MemoryDBFacts.ByBrokerInOrder` | backend/models/MemoryDB.js:104-106 | the broker's listings, of any status, form an order-preserving subsequence and contain each such listing |
| `ListingQuery.BuildFilter` | backend/routes/properties.js:26-44 | status 판매중 is always required. Each text parameter and `rooms` adds an equality only when given. A range appears only when one of its bounds is given, and then holds exactly the given bounds |
| `ListingQuery.FilterMeaning` | backend/routes/properties.js:26-46 | the built filter selects exactly the on-sale listings equal on every given parameter, with the given room count, and within every given inclusive price and area bound |
| `ListingQuery.FindMatching` | backend/routes/properties.js:46-52 | `find` and `countDocuments` see the stored listings the query selects, all of them and nothing else |
| `ListingQuery.NewestFirst` | backend/routes/properties.js:48 | the matches in non-increasing creation time, as a permutation |
| `ListingQuery.PriceRangeExample` | backend/routes/properties.js:34-38 | a monthly-rent listing priced 50000 is found between 40000 and 60000 and at an upper bound equal to its price, but not below 40000 |
| `ListingQuery.ConjunctiveParameters` | backend/routes/properties.js:26-44 | parameters combine by conjunction: a query carrying the parameters of two disjoint queries selects exactly what both select |
| `ListingQuery.ConjunctiveSearch` | backend/routes/properties.js:26-46 | searching with both queries is searching the first result with the second |
| `ListingQuery.CeilDiv` | backend/routes/properties.js:56 | `Math.ceil(total / limit)`: the fewest pages of the given size that hold the total |
| `ListingQuery.Paginate` | backend/routes/properties.js:49-50 | skip `(page-1)*limit` and take at most `limit`: item `i` of the page is item `(page-1)*limit+i` of the sequence |
| `ListingQuery.AllPagesPrefix` | backend/routes/properties.js:49-50 | pages 1 to n, concatenated, are the first `n*limit` items |
| `ListingQuery.ConcatSlices` | backend/routes/properties.js:49-50 | pages fetched one by one, each the slice its number names, read one after another are the first pages of the sequence |
| `ListingQuery.PagesCoverAll` | backend/routes/properties.js:46-57 | pages 1 to `totalPages`, concatenated, are the whole sequence |
| `ListingQuery.SumPageSizesPrefix` | backend/routes/properties.js:49-50 | the page sizes of pages 1 to n add up to `min(n*limit, total)` |
| `ListingQuery.PageSizesSum` | backend/routes/properties.js:46-57 | the page sizes over pages 1 to `totalPages` add up to the total |
| `ListingQuery.MemoryStoreAgrees` | backend/models/MemoryDB.js:51-77 | on a query with no area bound and no numeric parameter of 0, `findProperties` returns exactly the route filter's selection, in the same order |
| `ListingQuery.MemoryStoreDiverges` | backend/models/MemoryDB.js:66-74 | `findProperties` ignores a room count of 0 and has no area bound, both of which the route filter enforces |
| `PropertyRoutes.SearchPage` | backend/routes/properties.js:46-59 | the reply page holds matches only, newest first. It has the page size for the requested page, `totalPages` is the ceiling and `total` is the match count. With a page size of 0 the page holds every match and `totalPages` is null |
| `PropertyRoutes.Browse` | backend/routes/properties.js:10-64 | the search writes nothing. Page 0 with a positive page size fails with 500, and nothing else does. Otherwise 200 with the requested page of the matches |
| `PropertyRoutes.BrowseShowsSelected` | backend/routes/properties.js:12-54 | every listing a search shows is a stored listing that the query selects |
| `PropertyRoutes.FetchedIsPrefix` | backend/routes/properties.js:46-59 | when no two matches share a creation time, the replies for pages 1 to n, concatenated, are the first n slices of the newest-first matches |
| `PropertyRoutes.PageOfIsSlice` | backend/routes/properties.js:46-50 | page k of a search is the k-th slice of the newest-first matches, whatever page the query named |
| `PropertyRoutes.BrowsingEveryPage` | backend/routes/properties.js:46-59 | when no two matches share a creation time, fetching pages 1 to `totalPages` returns every matching listing exactly once, newest first |
| `PropertyRoutes.ViewListing` | backend/routes/properties.js:67-85 | an unknown id gives 404 and no change. Otherwise the listing's views rise by exactly one, `updatedAt` becomes the save time, nothing else changes, and only that record is rewritten. A stored listing that fails validation on save gives 500 and no change |
| `PropertyRoutes.CreateListing` | backend/routes/properties.js:88-125 | an invalid body gives 400 before any lookup. A missing or non-broker caller gives 403. Nothing is written unless the reply is 201. A 201 appends one listing under the next id, owned by the caller even if the body names another broker. Every other field the body supplies is kept, status and bathrooms included, and only the fields it omits take the schema defaults, with empty `images` and `features` |
| `PropertyRoutes.BodyValidAgainstSchema` | backend/routes/properties.js:88-115 | a body that passes the route's validators saves exactly when it has no status or an enumerated one; a body that would save passes the validators exactly when it has an address |
| `PropertyRoutes.UpdateListing` | backend/routes/properties.js:128-154 | an unknown id gives 404 and a non-owner gets 403, both with no change. The owner's body is spread over the record, each key it sends as `null` is stored as `null`, `updatedAt` is refreshed and only that record changes |
| `PropertyRoutes.DeleteListing` | backend/routes/properties.js:157-176 | an unknown id gives 404 and a non-owner gets 403, both with no change. For the owner, exactly that record is removed |
| `PropertyRoutes.MyListings` | backend/routes/properties.js:179-189 | the caller's listings of every status, each exactly once and newest first; nothing is written |
| `PropertyRouteFacts.ViewKeepsValid` | backend/routes/properties.js:77-78 | counting a view keeps the id invariant |
| `PropertyRouteFacts.CreateKeepsValid` | backend/routes/properties.js:109-115 | a create keeps the id invariant |
| `PropertyRouteFacts.UpdateKeepsValid` | backend/routes/properties.js:140-144 | an update keeps the id invariant |
| `PropertyRouteFacts.DeleteKeepsValid` | backend/routes/properties.js:169 | a delete keeps the id invariant |
| `PropertyRouteFacts.OnlyOwnerWrites` | backend/routes/properties.js:128-176 | an update or delete that is not answered 200 leaves the store as it was, and a 200 only happens for the owner of an existing listing |
| `PropertyRouteFacts.ViewOnce` | backend/routes/properties.js:67-85 | one view of a valid stored listing succeeds and leaves it in place, still valid, with one more view and the new time |
| `PropertyRouteFacts.ViewTwice` | backend/routes/properties.js:76-78 | two views of a valid listing raise its count by exactly two |
| `PropertyRouteFacts.UpdateCanReassignOwner` | backend/routes/properties.js:140-144 | an owner's update can set `broker` to another user, after which the former owner is refused |
| `PropertyRouteFacts.NullBrokerLocksListing` | backend/routes/properties.js:134-144 | after the owner sends `broker` as `null`, every later update or delete of the listing, by anyone, fails with 500 |
| `PropertyRouteFacts.NullStatusHides` | backend/routes/properties.js:140-144 | after the owner sends `status` as `null`, the listing is no longer on sale and no search shows it |
| `PropertyRouteFacts.CreatedListingIsFound` | backend/routes/properties.js:109-115 | a created listing is what its id finds, and it is among the caller's own listings |
| `PropertyRouteFacts.InvalidBodyBeforeRole` | backend/routes/properties.js:99-107 | a non-broker sending an invalid body gets 400, not 403 |
| `PropertyRouteFacts.CreatorOwns` | backend/routes/properties.js:109-112 | a broker's valid create without a status yields an on-sale listing owned by the caller |
| `AuthRoutes.RoleOf` | backend/routes/auth.js:42 | the requested role when it is non-empty, otherwise 일반사용자 |
| `AuthRoutes.NewProfile` | backend/routes/auth.js:37-44 | the stored profile has the hashed password and the defaulted role. Broker details are kept exactly when the requested role is 중개사 |
| `AuthRoutes.Register` | backend/routes/auth.js:17-64 | invalid input gives 400 before any lookup, and a known email gives 400 with no change. 201 happens exactly for valid input with a new email, and then exactly one user is appended under the next id; the reply carries no password |
| `AuthRoutes.Login` | backend/routes/auth.js:67-106 | nothing is written. 200 happens exactly when the user with that email exists and the comparison accepts the password. After validation, every 400 carries the same credentials message |
| `AuthRoutes.VerifyBroker` | backend/routes/auth.js:120-160 | empty fields give 400 and an unknown user gives 404, both with no change. Otherwise only that user changes: role 중개사 and the given details with `isVerified` false, all else kept |
| `AuthRouteFacts.RegisterKeepsValid` | backend/routes/auth.js:37-46 | a registration keeps the id invariant |
| `AuthRouteFacts.VerifyKeepsValid` | backend/routes/auth.js:133-146 | a broker application keeps the id invariant |
| `AuthRouteFacts.LoginFailuresIndistinguishable` | backend/routes/auth.js:79-87 | an unknown email and a wrong password get identical replies |
| `AuthRouteFacts.RegisterThenLogin` | backend/routes/auth.js:37-99 | if the comparison accepts the hash's outputs, a user who has just registered logs in with the same email and password as that new account |
| `AuthRouteFacts.RegisterTwiceRejected` | backend/routes/auth.js:32-35 | a second registration of the same email is refused with the duplicate message and writes nothing |
| `AuthRouteFacts.RegisterKeepsClientVerification` | backend/routes/auth.js:43 | a client registering as 중개사 with `isVerified` true is stored as a verified broker |
| `AuthRouteFacts.RegisterDropsDetailsOfMembers` | backend/routes/auth.js:42-43 | broker details sent with any other role are not stored, and the user is not a broker |
| `AuthRouteFacts.ApplicationResetsVerification` | backend/routes/auth.js:133-146 | after an application the user found by id is a broker whose `isVerified` is false |
| `Scenarios.ApplicantCanListBeforeApproval` | backend/routes/properties.js:104-107 | the create route checks only the role, so an applicant still awaiting approval can list |
| `Scenarios.RegisteredBrokerCanList` | backend/routes/properties.js:104-107 | registering with the broker role is enough to create a listing |
| `Scenarios.RegisteredMemberCannotList` | backend/routes/properties.js:104-107 | a member registered without a role is refused a listing with 403 |

## Behaviour of note

Each point below is a fact about the code, and the named lemma states it.

- The update route spreads the raw body over the listing. `broker` can therefore be rewritten after creation, although the route's comment, "매물 수정 (등록자만)" (edit by the registrant only), ties edits to the registrant (`PropertyRouteFacts.UpdateCanReassignOwner`).
- A key sent as `null` in an update body is stored as `null`, because no validator runs on the update. A `null` broker makes every later update and delete of the listing fail with 500 (`PropertyRouteFacts.NullBrokerLocksListing`). A `null` status takes the listing out of every search (`PropertyRouteFacts.NullStatusHides`).
- The create route validates before it checks the role, so a member with an invalid body gets 400 rather than 403 (`PropertyRouteFacts.InvalidBodyBeforeRole`).
- The create route's comment reads "매물 등록 (중개사만)" (registration by brokers only), and the broker application sets `isVerified` false with the comment "관리자 승인 필요" (administrator approval needed). Still, only the role is checked on create, never `brokerInfo.isVerified` (`Scenarios.ApplicantCanListBeforeApproval`, `Scenarios.RegisteredBrokerCanList`).
- Registration stores client-sent broker details including `isVerified` (`AuthRouteFacts.RegisterKeepsClientVerification`).
- A create body that carries `views` or `createdAt` keeps them, because the schema defaults only fill missing fields (`PropertyRoutes.CreateListing`).

## Left out

- Token signing and checking (`generateToken`, `middleware/auth.js`) are left out. The caller's id is a trusted handler input, and the 401 replies are not modelled.
- Password hashing and `comparePassword` are left out. They live in the user model, which is not part of this model; they appear as the parameters `hash` and `matches`. A `password` too short in UTF-16 units but long enough in characters is not distinguished.
- The internals of the request validators are left out. `isEmail` and `normalizeEmail` are an input verdict on an already normalised email, and `trim` is not applied. A title of spaces that passes `notEmpty` and is trimmed to empty would fail on save with 500, which the model does not show.
- The user model's own schema (required fields, enum on `userType`, unique email index) is not part of this model. Registration always succeeds after the duplicate check.
- `GET /auth/me` is left out. It is a plain lookup with the password projected away.
- Document-store plumbing is left out: connection, Express wiring, `populate('broker', …)` (the reply carries the broker id, not the broker's profile), type casting, and ObjectId generation (ids come from counters).
- A request body's `_id` is dropped on create and update. The store would use a valid one on create and refuse a changed one on update.
- Query-string coercion is left out. `page` and `limit` are naturals, and a numeric parameter is the number `parseInt` reads from a non-empty string; junk such as `"abc"` or `"2x"` is not modelled. `currentPage` is echoed as a number, not as the original string.
- Prices, rooms and query bounds are integers, and area is a real. Floating-point rounding is not modelled.
- The in-memory `findProperties` throws when a filtered listing has no `address`. The model treats the city and district of such a listing as absent, so it is filtered out.
- Concurrency is left out: the view count is read, raised and saved, so two interleaved views can lose one; interleaved requests are not modelled.
- The store's order among listings with equal `createdAt` is left out. The store may order such ties differently on each request, but the model fixes one order (stable, stored order) for `PropertyRoutes.Browse`, `PropertyRoutes.SearchPage` and `PropertyRoutes.MyListings`.
- `PropertyRoutes.FetchedIsPrefix`: requires that no two matches share a creation time, because with ties separate page requests may overlap or skip listings.
- `PropertyRoutes.BrowsingEveryPage`: requires that no two matches share a creation time, for the same reason.
- `null` in request bodies is modelled on the update route only. On create the save's validation would refuse a `null` required field or enumerated value, and the in-memory `updateProperty` and `createProperty` receive no `null` in the model. A `null` sent for `_id`, `views`, `createdAt` or `updatedAt` in an update is not modelled either.
- Real clocks are left out. Every handler that stamps a time takes `now` as a parameter.
- The frontend is left out.
- `PropertyRoutes.ViewListing`: the populated `broker` of the fetched document is not modelled; the save validates the listing as stored.
- `MemoryDBFacts.CreateUserKeepsValid`: requires the data to carry no `_id`, because with one the invariant can fail (`MemoryDBFacts.CreateUserIdCanCollide`).
- `MemoryDBFacts.CreatePropertyKeepsValid`: requires the data to carry no `_id`, for the same reason.
- `MemoryDBFacts.UpdateUserKeepsValid`: requires the update to carry no `_id`, for the same reason.
- `MemoryDBFacts.UpdatePropertyKeepsValid`: requires the update to carry no `_id`, for the same reason.
