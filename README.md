# Home-decor shop backend: business rules in Dafny

This project models the business rules of a GraphQL furniture shop backend in Dafny. The modelled
parts are:

- the account life cycle: registration, e-mail verification by one-time code (OTP), login,
  password reset and profile update;
- the `isAuthenticated` request guard;
- the resolvers for carts, reviews, wishlists (favourites), furniture, orders and categories.

The ORM's database becomes one object, `Store.Database`. It has one map field per table: users
keyed by their unique email, and every other table keyed by its autoincrement id, with a counter
for the next id. The users-to-favourite-furniture relation is its join table, a set of
(userId, furnitureId) rows. Every resolver is a module-level method that takes the database as its
`db` parameter, and one call is one atomic step. `Database.Valid()` gathers the table invariants: keys match ids, ids stay below the counters,
a user's code and its expiry are set and cleared together, one cart per user, one cart item per
(cart, furniture), ratings in 1..5, unique category names, and favourites naming existing furniture.
Every modelled mutating method keeps `Valid()`; it is an invariant of these resolvers only (see
"Left out").

What the account resolvers do to one user record is stated as pure step functions: `NewUser`,
`WithFreshOtp`, `UserResolver.LoginStep`, `PasswordResolver.ResetStep` and
`ProfileResolver.ProfileStep`. The methods are proved against these functions, and lemmas about the
functions follow a record through several calls. One example is that a code which logged a user in
keeps working until it expires, because login never clears it.

Time is an integer count of milliseconds. Codes expire `30 * 60 * 1000` ms after they are issued.

Parameters stand in for everything outside the program:

- the clock is `now`;
- the three random bytes behind a code are `random`;
- the salt bcrypt draws is `salt`;
- `jwt.verify` is a function argument of the guard.

Mail handed to the transport is recorded in the ghost log `AuthUtils.Outbox.sent`. A signed token
is represented by the claims it carries and its lifetime.

Where a resolver wraps its body in `try { ... } catch { throw new GraphQLError(..., code) }`,
`Errors.Rethrow` replaces any error from inside the block, the resolver's own not-found errors
included, by the catch block's code. ORM failures that no resolver catches appear as
`Errors.Orm(...)`.

Login never clears the stored code after accepting it
(src/graphql/resolvers/userResolver.ts:57-63 only sets `isVerified`), so a code can be used again
until it expires; `UserResolver.OtpReplayedUntilExpiry` states this.

## Model

| member | source | states |
|---|---|---|
| Errors.Rethrow | src/graphql/resolvers/cartResolver.ts:74-78 | a try/catch resolver passes its body's value through and replaces any thrown error, inner GraphQLErrors included, by the catch block's code |
| Passwords.Hash | src/graphql/resolvers/userResolver.ts:21 | the stored digest accepts the password it was made from and records the salt it drew |
| Passwords.HashAcceptsOnlyItsPassword | src/graphql/resolvers/userResolver.ts:65 | `bcrypt.compare` accepts a digest's own password and no other |
| Passwords.RehashKeepsAcceptedPasswords | src/graphql/resolvers/profileResolver.ts:26-38 | re-hashing a password the stored digest accepts yields a digest accepting exactly the same passwords |
| AuthUtils.HexEncode | src/utils/authUtils.ts:8 | `toString("hex")` gives two lower-case hex digits per byte |
| AuthUtils.HexDecodeEncode | src/utils/authUtils.ts:8 | hex encoding is lossless: decoding the string gives back the random bytes |
| AuthUtils.OtpCode | src/utils/authUtils.ts:8 | a code is 6 lower-case hex characters and determines the 3 random bytes it came from |
| AuthUtils.SendOtp | src/utils/authUtils.ts:7-11 | returns the code drawn from the random bytes and appends exactly one verification mail with that code to that address |
| AuthUtils.VerifyOtp | src/utils/authUtils.ts:13-28 | passes iff the stored code is non-empty, the expiry is present, now <= expiry and the codes are equal; EXPIRED_OTP iff the stored code is not live; INVALID_OTP iff it is live but differs |
| AuthUtils.ExpiryInstantStillAccepted | src/utils/authUtils.ts:18 | the expiry comparison is strict: the expiry instant accepts, one millisecond later is EXPIRED_OTP |
| AuthUtils.ExpiredMatchingCodeIsExpired | src/utils/authUtils.ts:18-27 | expiry is checked before the comparison, so an expired matching code is EXPIRED_OTP |
| AuthUtils.ClearedOtpNeverPasses | src/utils/authUtils.ts:18-22 | with no stored code and no expiry every submitted code is EXPIRED_OTP |
| AuthUtils.GenerateToken | src/utils/authUtils.ts:30-44 | the token carries userId, email, name, phone and address of the payload and a one-hour lifetime |
| AuthUtils.TokenIgnoresOnlyVerification | src/utils/authUtils.ts:32-38 | two payloads give the same token iff they differ at most in `isVerified` |
| AuthMiddleware.Split | src/utils/authMiddleware.ts:10 | `split(" ")` yields at least one piece and no piece contains the separator |
| AuthMiddleware.JoinSplit | src/utils/authMiddleware.ts:10 | joining the pieces of a split with the separator gives back the header |
| AuthMiddleware.SplitJoin | src/utils/authMiddleware.ts:10 | splitting separator-free pieces joined by the separator gives back the pieces |
| AuthMiddleware.SplitWithoutSeparator | src/utils/authMiddleware.ts:10 | a string without the separator splits into itself alone |
| AuthMiddleware.SplitAtFirstSeparator | src/utils/authMiddleware.ts:10 | splitting `a + sep + b` with separator-free `a` gives `a` followed by the pieces of `b` |
| AuthMiddleware.ExtractToken | src/utils/authMiddleware.ts:10-16 | a token is found iff the header is present and its second space-separated piece is non-empty, and it is that piece |
| AuthMiddleware.SchemeWordIsNotChecked | src/utils/authMiddleware.ts:10 | `<any word> <token>` yields the token; "Bearer" is not required |
| AuthMiddleware.DoubleSpaceHidesToken | src/utils/authMiddleware.ts:10-16 | two spaces after the scheme word leave the second piece empty, so TOKEN_MISSING follows |
| AuthMiddleware.SingleWordHasNoToken | src/utils/authMiddleware.ts:10-16 | a header without a space holds no token |
| AuthMiddleware.IsAuthenticated | src/utils/authMiddleware.ts:6-28 | no token gives TOKEN_MISSING, a rejected token INVALID_TOKEN, both leaving the context untouched and returning no result of `next`; otherwise `context.user` becomes the decoded claims and the result is `next()`'s (`next` is a pure function here, so whether it runs, and any state change behind it, is not observable) |
| UserResolver.NewUser | src/graphql/resolvers/userResolver.ts:21-31 | a registered user is unverified, holds a hash accepting the given password, the mailed code and an expiry of now + 30 min, and no phone or address |
| UserResolver.WithFreshOtp | src/graphql/resolvers/userResolver.ts:108-115 | issuing a code changes the code and its expiry (now + 30 min) and nothing else |
| UserResolver.LoginStep | src/graphql/resolvers/userResolver.ts:43-81 | an unverified user without a code gets EMAIL_NOT_VERIFIED and a mailed code that is not stored; a given code is checked first and on success verifies the user without clearing it; only then is the password compared, a wrong one giving INVALID_CREDENTIALS; a token is issued iff all checks pass, built from the stored record |
| UserResolver.Register | src/graphql/resolvers/userResolver.ts:12-35 | a taken email gives EMAIL_TAKEN and changes nothing; otherwise exactly one `NewUser` record is added under the next id and one mail is sent |
| UserResolver.Login | src/graphql/resolvers/userResolver.ts:38-81 | an unknown email gives USER_NOT_FOUND and changes nothing; otherwise the record, the result and the mail sent are those of `LoginStep` |
| UserResolver.DeleteUserByEmail | src/graphql/resolvers/userResolver.ts:84-97 | removes and returns the record, with its favourites rows; an unknown email gives USER_NOT_FOUND |
| UserResolver.ResendOtp | src/graphql/resolvers/userResolver.ts:100-118 | an absent or verified user gives USER_ERROR and changes nothing; otherwise only the code and expiry change and the code is mailed |
| UserResolver.VerifiedLoginWithoutOtp | src/graphql/resolvers/userResolver.ts:65-80 | a verified user with no code and the right password gets the token of the stored record, and the record is unchanged |
| UserResolver.VerificationSurvivesWrongPassword | src/graphql/resolvers/userResolver.ts:57-69 | a correct code with a wrong password leaves the user verified and fails with INVALID_CREDENTIALS |
| UserResolver.OtpReplayedUntilExpiry | src/graphql/resolvers/userResolver.ts:57-63 | login never clears the code: a code that logged a user in logs them in again at any time up to its expiry |
| UserResolver.RefusedLoginCodeIsUseless | src/graphql/resolvers/userResolver.ts:50-55 | the code mailed on EMAIL_NOT_VERIFIED is not stored, so unless it equals the stored code it cannot log in |
| UserResolver.IssuedCodeVerifies | src/graphql/resolvers/userResolver.ts:57-80 | a freshly issued code, used in time with the right password, verifies the user and yields their token |
| PasswordResolver.ResetStep | src/graphql/resolvers/passwordResolver.ts:42-52 | a failing code check fails with its code and stores nothing; a passing one replaces the password by a hash of the new one, clears code and expiry together and touches nothing else |
| PasswordResolver.ForgotPassword | src/graphql/resolvers/passwordResolver.ts:11-28 | an unknown email gives USER_NOT_FOUND; otherwise a fresh code is stored and mailed whatever `isVerified` is, and the result is true |
| PasswordResolver.ResetPassword | src/graphql/resolvers/passwordResolver.ts:31-55 | an unknown email gives USER_NOT_FOUND; otherwise the record and result are those of `ResetStep` |
| PasswordResolver.SecondResetFails | src/graphql/resolvers/passwordResolver.ts:45-52 | after a successful reset any further reset fails with EXPIRED_OTP |
| PasswordResolver.ExpiredResetKeepsPassword | src/graphql/resolvers/passwordResolver.ts:42 | a reset after the expiry fails with EXPIRED_OTP and stores nothing |
| PasswordResolver.ForgottenPasswordCanBeReset | src/graphql/resolvers/passwordResolver.ts:11-55 | the code `forgotPassword` stores resets the password up to its expiry, after which only the new password is accepted |
| ProfileResolver.ProfileStep | src/graphql/resolvers/profileResolver.ts:24-49 | a non-empty password must match (else INVALID_PASSWORD) and leaves the accepted passwords unchanged; name, phone and address take any given value, "" included; id, email, code, expiry and verification never change |
| ProfileResolver.UpdateProfile | src/graphql/resolvers/profileResolver.ts:13-52 | an unknown email gives USER_NOT_FOUND; otherwise the record and result are those of `ProfileStep` |
| ProfileResolver.EmptyStringsOverwriteProfile | src/graphql/resolvers/profileResolver.ts:44-46 | null fields keep the record; empty strings overwrite name, phone and address |
| ProfileResolver.EmailFieldIsIgnored | src/graphql/resolvers/profileResolver.ts:41-49 | the input's email field has no effect |
| CartResolver.ItemsOfCart | src/graphql/resolvers/cartResolver.ts:21-30 | exactly the items whose cartId is the cart's |
| CartResolver.FindCart | src/graphql/resolvers/cartResolver.ts:41 | finds the user's cart iff one exists |
| CartResolver.FindItem | src/graphql/resolvers/cartResolver.ts:51-56 | finds the cart's item for the furniture iff one exists |
| CartResolver.GetCartByUserId | src/graphql/resolvers/cartResolver.ts:18-31 | null iff the user has no cart; otherwise that cart with exactly its items |
| CartResolver.FindOrCreateCart | src/graphql/resolvers/cartResolver.ts:41-49 | a cart is created only when the user has none; afterwards the user has exactly one |
| CartResolver.PutItem | src/graphql/resolvers/cartResolver.ts:51-73 | an existing item gains the quantity and no item is added; otherwise one new item is added, or the furniture foreign key fails |
| CartResolver.AddItemToCart | src/graphql/resolvers/cartResolver.ts:35-79 | the user has a cart afterwards; the quantity (default 1) is merged into an existing item or a new one is created; missing furniture gives INTERNAL_SERVER_ERROR with the new cart kept |
| CartResolver.UpdateCartItemQuantity | src/graphql/resolvers/cartResolver.ts:83-108 | a quantity below 1 gives INVALID_INPUT before the store; a missing item INTERNAL_SERVER_ERROR; otherwise the quantity becomes exactly the given one |
| CartResolver.RemoveItemFromCart | src/graphql/resolvers/cartResolver.ts:112-128 | removes exactly that item and returns true; a missing item gives INTERNAL_SERVER_ERROR |
| CartResolver.ClearCart | src/graphql/resolvers/cartResolver.ts:132-155 | removes every item of the user's cart and no other item, keeps the cart; no cart gives INTERNAL_SERVER_ERROR |
| ReviewResolver.ReviewsOfFurniture | src/graphql/resolvers/reviewResolver.ts:21-26 | exactly the reviews of that furniture |
| ReviewResolver.PatchReview | src/graphql/resolvers/reviewResolver.ts:69-78 | a field changes iff it was supplied; id, furniture and author never change |
| ReviewResolver.GetReviewsByFurnitureId | src/graphql/resolvers/reviewResolver.ts:18-27 | returns exactly the reviews with that furnitureId, all rated within 1..5 |
| ReviewResolver.AddReview | src/graphql/resolvers/reviewResolver.ts:31-60 | a rating outside 1..5 gives INVALID_INPUT; missing furniture or user gives INTERNAL_SERVER_ERROR; otherwise one review with the given fields is added |
| ReviewResolver.UpdateReview | src/graphql/resolvers/reviewResolver.ts:64-94 | a supplied rating outside 1..5 gives INVALID_INPUT and changes nothing; a missing review INTERNAL_SERVER_ERROR; otherwise the supplied fields are patched in |
| ReviewResolver.DeleteReview | src/graphql/resolvers/reviewResolver.ts:98-110 | removes and returns the review; a missing one gives INTERNAL_SERVER_ERROR |
| ReviewResolver.PatchKeepsRatingInRange | src/graphql/resolvers/reviewResolver.ts:70-76 | an update passing the guard keeps a stored rating within 1..5 |
| ReviewResolver.PatchIdentityAndIdempotent | src/graphql/resolvers/reviewResolver.ts:69-78 | an empty update changes nothing, and an update applied twice equals it applied once |
| ReviewResolver.AddOtherFurnitureReviewInvisible | src/graphql/resolvers/reviewResolver.ts:21-26 | a review of other furniture does not change this furniture's reviews |
| WishlistResolver.FavouriteIds | src/graphql/resolvers/wishlistResolver.ts:21-28 | a furniture id is a user's favourite iff the join table holds that row |
| WishlistResolver.Connect | src/graphql/resolvers/wishlistResolver.ts:46-56 | adds exactly that furniture to the user's favourites and changes no other user's |
| WishlistResolver.Disconnect | src/graphql/resolvers/wishlistResolver.ts:67-74 | removes exactly that furniture from the user's favourites and changes no other user's |
| WishlistResolver.FavouriteFurniture | src/graphql/resolvers/wishlistResolver.ts:21-28 | the furniture records of exactly the user's favourites |
| WishlistResolver.GetUserFavourites | src/graphql/resolvers/wishlistResolver.ts:18-29 | null iff the email is unknown; otherwise the user's favourite furniture, possibly none |
| WishlistResolver.AddToFavourites | src/graphql/resolvers/wishlistResolver.ts:33-59 | missing furniture gives FURNITURE_NOT_FOUND and changes nothing; an unknown email the ORM's not-found error; otherwise the furniture is connected and returned |
| WishlistResolver.RemoveFromFavourites | src/graphql/resolvers/wishlistResolver.ts:63-77 | an unknown email gives the ORM's not-found error; otherwise the furniture is disconnected and the result is true |
| WishlistResolver.ConnectIdempotent | src/graphql/resolvers/wishlistResolver.ts:46-56 | adding a favourite twice equals adding it once |
| WishlistResolver.DisconnectUndoesConnect | src/graphql/resolvers/wishlistResolver.ts:46-74 | removing a favourite just added, absent before, restores the join table |
| FurnitureResolver.MergeFurniture | src/graphql/resolvers/furnitureResolver.ts:84-89 | a field takes the argument iff it is truthy; the id never changes |
| FurnitureResolver.AllFurniture | src/graphql/resolvers/furnitureResolver.ts:11-13 | returns every furniture record |
| FurnitureResolver.FurnitureById | src/graphql/resolvers/furnitureResolver.ts:17-21 | the record with that id, or null iff there is none |
| FurnitureResolver.CreateFurniture | src/graphql/resolvers/furnitureResolver.ts:25-60 | an unknown category gives INTERNAL_SERVER_ERROR (its CATEGORY_NOT_FOUND is swallowed) and creates nothing; otherwise one record with the given fields is added |
| FurnitureResolver.UpdateFurniture | src/graphql/resolvers/furnitureResolver.ts:64-99 | a missing record or a truthy unknown category gives INTERNAL_SERVER_ERROR and changes nothing; otherwise the truthy fields are merged in |
| FurnitureResolver.DeleteFurniture | src/graphql/resolvers/furnitureResolver.ts:103-113 | removes and returns the record, with its favourites rows; a missing one gives FURNITURE_NOT_FOUND |
| FurnitureResolver.FalsyArgumentsKeepRecord | src/graphql/resolvers/furnitureResolver.ts:84-89 | null, "" and 0 arguments leave the record unchanged: an empty title, a price of 0 or a category id of 0 cannot be set |
| FurnitureResolver.MergeIdempotent | src/graphql/resolvers/furnitureResolver.ts:84-89 | an update applied twice equals it applied once |
| FurnitureResolver.DeleteRemovesFromFavourites | src/graphql/resolvers/furnitureResolver.ts:105-107 | deleting furniture removes it from every user's favourites and keeps the rest |
| OrderResolver.OrderItemsOf | src/graphql/resolvers/orderResolver.ts:42-46 | one order item per input item, in order, with furnitureId, price and quantity copied |
| OrderResolver.OrderItemsOfAppend | src/graphql/resolvers/orderResolver.ts:42-46 | the projection works item by item: it distributes over concatenation |
| OrderResolver.OrderItemsOfInjective | src/graphql/resolvers/orderResolver.ts:42-46 | the projection loses nothing: different inputs give different item lists |
| OrderResolver.AllOrders | src/graphql/resolvers/orderResolver.ts:12-19 | returns every order |
| OrderResolver.CreateOrder | src/graphql/resolvers/orderResolver.ts:23-61 | an unknown user gives INTERNAL_SERVER_ERROR (its USER_NOT_FOUND is swallowed) and creates nothing; otherwise one order with the default status, the given total unchecked, and the projected items is added |
| OrderResolver.UpdateOrderStatus | src/graphql/resolvers/orderResolver.ts:65-92 | a missing order gives INTERNAL_SERVER_ERROR; otherwise only its status changes |
| CategoryResolver.AllCategories | src/graphql/resolvers/categoryResolver.ts:11-13 | returns every category |
| CategoryResolver.CreateCategory | src/graphql/resolvers/categoryResolver.ts:17-23 | adds one category with the given name; a taken name gives the ORM's unique-constraint error |
| CategoryResolver.DeleteCategory | src/graphql/resolvers/categoryResolver.ts:27-37 | removes and returns the category with that name, after which no category has it; an unknown name gives CATEGORY_NOT_FOUND and changes nothing |
| CategoryResolver.RemoveNamedCategory | src/graphql/resolvers/categoryResolver.ts:27-31 | with unique names, removing the named category removes that name and keeps every other |

## Left out

- Mail delivery (src/utils/emailUtils.ts) is not part of this model. A send is recorded in a ghost log and always succeeds, and the unused reset-password mail is absent.
- The HTTP server and schema assembly (src/index.ts, src/graphql/schema/schema.ts) are not part of this model. Neither is which resolvers sit behind the guard: the guard is a method of its own.
- The guard never ties the token's identity to the `email` or `userId` argument a resolver is given, and neither does the model.
- bcrypt's cost factor, its salt format and its 72-byte input limit are not modelled. Nor is the JWT signature and its expiry check: `verify` is a parameter.
- Concurrent requests and the awaits between a read and the following write are not modelled. Each resolver call is atomic.
- Referential actions on delete are not modelled except for the favourites join table, which cascades. The schema file declaring them is not part of this model. Deleting a user, furniture or category that other rows still reference therefore succeeds in the model.
- The foreign keys of order items and of carts are not checked, for the same reason. Cart items check their furniture, and reviews check their furniture and user.
- The `include` options (a cart's item furniture, a review's user and furniture, an order's user) are not loaded. Results are the stored rows themselves.
- Order item ids and their orderId are not modelled. An order holds its items as a sequence.
- The GraphQL 32-bit `Int` range is not modelled, so overflow of `existing quantity + quantity` is absent too.
- Prices and totals are `real`, not IEEE doubles. NaN, which is falsy in `updateFurniture`, is not modelled. `furniture(id)` takes a Float id, modelled as an integer.
- `updateReview` with an explicit `null` rating or content is not modelled. Both are modelled as supplied or omitted. In the code a null rating passes `!== undefined` and then fails the range check.
- WishlistResolver.RemoveFromFavourites: for a known email the model returns true and changes nothing when the furniture is not a favourite, or does not exist at all; whether the ORM raises on an unknown furniture id is not modelled.
- Error messages are not modelled. Only the codes are.
- The CRUD resolvers generated from the schema, which src/graphql/schema/schema.ts:2,15 adds to the same server, are not modelled. They can write any row unchecked (a rating of 7, a second cart for a user, a code without an expiry), so `Database.Valid()` holds for the modelled resolvers only, not for the database the server exposes. The same applies to the 1..5 bound that ReviewResolver.GetReviewsByFurnitureId states.
- AuthMiddleware.IsAuthenticated: the resolver behind the guard is a pure `next: () -> R`, so the model does not show that `next` is skipped on a refusal, nor any state change a guarded resolver makes.
