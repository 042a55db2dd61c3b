# Marketplace authentication and listings core, in Dafny

This project models the authentication and session logic of the marketplace application. It also models the query building of its listings endpoints. It has seven parts:

- **Client session state machine** (`AuthContext`, auth_context.dfy).
  - The React auth provider holds the user, the token, the loading flag, an error, a notice, the persisted token slot and two timers. The timers are the expiry warning and the forced logout.
  - Each transition is first a function on the value `State`: hydrate, login and register, logout, timer scheduling, each timer firing, and the effect's cleanup.
  - The class `AuthSession` updates the same fields step by step, as the component does. Each method is proved to produce exactly the state its function gives.
  - The lemmas state what the transitions promise:
    - scheduling cancels what was pending;
    - an expired token signs out;
    - the warning is set ten seconds before expiry, or shown at once with the seconds left;
    - a failed `/auth/me` keeps an earlier error;
    - a timer invariant ties a pending logout to the current, persisted token. It holds because each transition, hydrate included, is one atomic step here (see "## Left out").
- **Local token decoding** (`ClientJwt`, jwt.dfy).
  - Base64url is converted to base64 with padding. The model proves a round trip back.
  - A token must split into exactly three segments.
  - The expiry is `new Date(exp * 1000)`: no date for a falsy `exp`, an Invalid Date when the product is NaN or out of the Date range, and otherwise a time in milliseconds.
- **Credential endpoints** (`AuthRoutes`, auth_routes.dfy).
  - Email normalisation is proved idempotent.
  - The email-shape test is proved equal to the regular expression it stands for.
  - POST /login is a function, since it only reads. It returns the same 401 for an unknown email and for a wrong password.
  - POST /register is a method on the users table, with the server's order of checks. It inserts a row only on success, and the insert keeps the table's invariant.
- **Bearer-token guard** (`BearerAuth`, require_auth.dfy).
  - The Authorization header is split on single spaces. The model proves exactly which header shapes yield a token.
  - The token is then verified, and the verified claims are attached to the request.
- **Ownership guard** (`OwnerGuard`, require_owner.dfy).
  - The chain is 400 for a bad id, 404 for an unknown listing, 403 for another seller, then the next handler.
  - Any store error answers 500.
- **Listings routes** (`ListingRoutes`, listings.dfy).
  - GET / builds its SQL text and parameter list. Each active filter adds one clause with the next `$k` placeholder, and `$k` is bound to `params[k-1]`.
  - GET /:id answers 404 for a missing or inactive listing.
  - POST / inserts a listing owned by the authenticated caller, never by a seller named in the body.
- **Shared helpers.** `Strings` holds the JavaScript string operations the core uses. `Api` holds the shapes shared by the server modules. `Wrappers` holds `Option`.

Some behaviour comes from libraries or from the outside world, so the model takes it as parameters:

- **Libraries:**
  - bcrypt's hash and compare are `hash` and `compare`.
  - jsonwebtoken's sign and verify are `sign` and `verify`.
  - `atob` followed by `JSON.parse` is `parse`.
  - `toLocaleTimeString` is `formatTime`.
  - `Math.round(parseFloat(v) * 100)` is `toCents`.
- **The outside world:**
  - The clock is `now` (milliseconds) or `nowSec` (seconds).
  - Each network answer is an `Option`, None when the request fails.
  - Database availability is `storeUp`, or an `Option` store.
  - JWT_SECRET being configured is `secretSet`.

## Model

| member | source | states |
|---|---|---|
| AuthContext.RemainingSeconds | client/src/context/AuthContext.jsx:67-72 | `max(1, ceil(ms/1000))` is at least 1. For positive `ms` it is the whole number of seconds covering `ms`. It is at most 10 when `ms` is at most 10000 |
| AuthContext.PlanTimers | client/src/context/AuthContext.jsx:46-79 | No expiry Date means no timer. An Invalid Date is its own case, the NaN deadline. A valid expiry at or before now means already expired. Otherwise logout is due exactly at expiry. A warning is scheduled exactly when more than 10000 ms remain, at expiry minus 10000. Otherwise an immediate notice carries 1..10 seconds |
| AuthContext.ScheduleIdempotent | client/src/context/AuthContext.jsx:42-44 | Scheduling twice in a row equals scheduling once, because pending timers are always cancelled first |
| AuthContext.ScheduleForgetsPriorTimers | client/src/context/AuthContext.jsx:42-80 | The timers and notice after scheduling depend only on the token and the time, never on what was pending before |
| AuthContext.ScheduleOutcome | client/src/context/AuthContext.jsx:42-80 | No expiry Date: timers and notice cleared, nothing else changes. Invalid Date: no warning, the notice "Session expires in NaN seconds.", and a logout due at once. Expired: fully signed out with "Session expired. Please log in again.". Otherwise logout at expiry with user, token and slot kept, plus the warning-or-notice split at 10 s |
| AuthContext.ScheduleKeepsInv | client/src/context/AuthContext.jsx:42-80 | Scheduling right after adopting a token keeps the timer invariant: a warning only with its logout, 10 s earlier; a logout only for the current persisted token, at its expiry |
| AuthContext.SignOutOutcome | client/src/context/AuthContext.jsx:183-193 | logout clears timers, slot, token, user and notice. The error is the reason when one is truthy, otherwise none. The session is not authenticated afterwards |
| AuthContext.HydrateWithoutToken | client/src/context/AuthContext.jsx:87-96 | With no persisted token the result does not depend on the `me` answer, so no call is needed. The session settles signed out with loading false |
| AuthContext.HydrateFailure | client/src/context/AuthContext.jsx:106-136 | A failed `me` clears timers, slot, user and token and sets loading false. An error already present is kept; otherwise a non-empty expiry error is set |
| AuthContext.HydrateError | client/src/context/AuthContext.jsx:119-129 | A truthy earlier error is kept. Otherwise the error is always truthy: "Session expired at <time>. Please log in again." for a persisted token with a valid expiry Date, "Session expired at Invalid Date. ..." for an Invalid Date, and "Session expired. Please log in again." without a token or an expiry Date |
| AuthContext.HydrateSuccess | client/src/context/AuthContext.jsx:98-105 | A successful `me` on a token that is not already expired adopts the user and the persisted token and authenticates. The logout is then pending at the token's expiry, at once for an Invalid Date, and not at all without an expiry Date |
| AuthContext.HydrateAfterCleanup | client/src/context/AuthContext.jsx:82-146 | After the cleanup marked the effect cancelled, a late hydrate changes nothing |
| AuthContext.HydrateKeepsInv | client/src/context/AuthContext.jsx:85-138 | Hydrate keeps the timer invariant |
| AuthContext.SignInOutcome | client/src/context/AuthContext.jsx:148-174 | Error and notice are cleared even when the call fails, and a failure changes nothing else. A success with an unexpired token stores the token in slot and state and adopts the user; it is authenticated iff the token is non-empty |
| AuthContext.SignInKeepsInv | client/src/context/AuthContext.jsx:148-174 | login and register keep the timer invariant |
| AuthContext.PendingLogoutMeansAuthenticated | client/src/context/AuthContext.jsx:76-79 | Under the invariant, a pending logout implies `isAuthenticated`, and a pending warning is due before it |
| AuthContext.TimersFireOutcome | client/src/context/AuthContext.jsx:62-79 | A due logout timer signs out with the session-expired error. A due warning timer only sets "Session expires in 10 seconds.". Both keep the invariant |
| AuthContext.ShortLivedToken | client/src/context/AuthContext.jsx:58-79 | A token expiring in 3000 ms shows "Session expires in 3 seconds." at once, has no warning timer, and is signed out by the logout timer 3000 ms later |
| AuthContext.InvalidExpirySignsOutAtOnce | client/src/context/AuthContext.jsx:49-79 | A token whose `exp` gives an Invalid Date gets no warning timer and the notice "Session expires in NaN seconds.". Its logout is due at once and signs out with the session-expired error |
| AuthContext.AuthSession.IsAuthenticated | client/src/context/AuthContext.jsx:203 | The answer is `Authenticated` of the current state: a user is present and the token is present and non-empty |
| AuthContext.AuthSession.ClearSessionTimers | client/src/context/AuthContext.jsx:31-40 | Afterwards both timer handles are none and nothing else has changed |
| AuthContext.AuthSession.Logout | client/src/context/AuthContext.jsx:183-193 | The new state is `SignOut` of the old one, and the invariant holds |
| AuthContext.AuthSession.ScheduleSessionTimers | client/src/context/AuthContext.jsx:42-80 | The new state is `Schedule` of the old one, and the invariant holds |
| AuthContext.AuthSession.SetTimers | client/src/context/AuthContext.jsx:58-79 | With the timers and notice already cleared: a NaN time left (Invalid Date) sets the "NaN seconds" notice and a logout due now; a positive time left sets exactly the warning, notice and logout that `PlanTimers` gives for that expiry |
| AuthContext.AuthSession.Hydrate | client/src/context/AuthContext.jsx:85-138 | The new state is `Hydrated` of the old one, and the invariant is preserved |
| AuthContext.AuthSession.Register | client/src/context/AuthContext.jsx:148-160 | The new state is `SignedIn` of the old one, and the invariant is preserved. It returns the server's user on success |
| AuthContext.AuthSession.Login | client/src/context/AuthContext.jsx:162-174 | The new state is `SignedIn` of the old one, and the invariant is preserved. It returns the server's user on success |
| AuthContext.AuthSession.FireWarning | client/src/context/AuthContext.jsx:62-64 | The new state is `WarningFired` of the old one, and the invariant is preserved |
| AuthContext.AuthSession.FireLogout | client/src/context/AuthContext.jsx:76-79 | The new state is `LogoutFired` of the old one, and the invariant is preserved |
| AuthContext.AuthSession.Unmount | client/src/context/AuthContext.jsx:142-145 | The effect is marked cancelled and the timers are cleared |
| AuthContext.AuthSession.SetAuthError | client/src/context/AuthContext.jsx:207 | Only the error changes, to the given value; the invariant is preserved |
| AuthContext.AuthSession.SetAuthNotice | client/src/context/AuthContext.jsx:208 | Only the notice changes, to the given value; the invariant is preserved |
| AuthContext.AuthSession.constructor | client/src/context/AuthContext.jsx:16-28 | Starts with no user, the token from the persisted slot, loading true, no error, no notice and no timers |
| ClientJwt.Base64UrlToBase64 | client/src/utils/jwt.js:38-43 | The output length is a multiple of 4 and the output has no `-` or `_`. Each input character maps one-to-one, `-`→`+` and `_`→`/`. Padding is added only when the length is not a multiple of 4, and then exactly `4 - len%4` `=` |
| ClientJwt.Base64UrlRoundTrip | client/src/utils/jwt.js:38-43 | Converting a base64url string to base64 and back gives it unchanged |
| ClientJwt.DecodeJwt | client/src/utils/jwt.js:45-60 | None for the empty token and for any token without exactly two dots (three segments). Otherwise the parse result of the converted middle segment, None when that fails |
| ClientJwt.DecodeJwtOfSegments | client/src/utils/jwt.js:49-56 | `header.payload.signature` with dot-free segments decodes to the parse of the converted payload segment |
| ClientJwt.TokenExpiry | client/src/utils/jwt.js:62-66 | No date iff the payload does not decode or `exp` is falsy. A valid Date iff `Number(exp)` is a number and `exp * 1000` lies within ±8.64e15, and then its time is exactly `exp * 1000`. Every other truthy `exp` gives an Invalid Date |
| ClientJwt.TokenExpiryOfSegments | client/src/utils/jwt.js:62-66 | For a well-formed token: a falsy `exp` gives no date, a NaN `exp` gives an Invalid Date, `exp = e` within range gives the time `e * 1000`, and a too large `e` gives an Invalid Date |
| Api.IssueClaims | server/src/routes/auth.js:51-56 | Signed claims carry `sub = id` and `email`, and expire 604800 s (seven days) after issue |
| Strings.Trim | server/src/routes/auth.js:8-10 | `trim()` gives the part of the input between its leading and trailing white space: a slice with only white space around it and none on its own edges |
| AuthRoutes.NormalizeEmail | server/src/routes/auth.js:8-10 | The result is the trimmed input with each character lower-cased (ASCII), so it has no edge white space and no upper-case ASCII letter |
| AuthRoutes.NormalizeEmailOfVariant | server/src/routes/auth.js:8-10 | Any ASCII casing of a normalised address, with any white space before and after it, normalises back to that address |
| AuthRoutes.NormalizeEmailIdempotent | server/src/routes/auth.js:8-10 | Normalising twice equals normalising once |
| AuthRoutes.NormalisedIsFixed | server/src/routes/auth.js:8-10 | An address is left unchanged by normalisation iff it has no edge white space and no upper-case ASCII letter; the users table stores only such addresses |
| AuthRoutes.IsValidEmail | server/src/routes/auth.js:12 | A valid email has exactly one `@` and no white space |
| AuthRoutes.IsValidEmailMatchesPattern | server/src/routes/auth.js:12 | The split-based predicate holds iff the string matches `^[^\s@]+@[^\s@]+\.[^\s@]+$`: one `@`, no white space, text before the `@`, and a `.` with text on both sides after it |
| AuthRoutes.NameOf | server/src/routes/auth.js:16-48 | The stored name is null exactly when the trimmed name is empty, and otherwise the trimmed name |
| AuthRoutes.RegisterPrecheck | server/src/routes/auth.js:20-31 | Passes iff both fields are present, the email is well formed, the password has at least 8 characters and the secret is set. Each failure has its 400 message in that order, and a missing secret then gives 500 "JWT_SECRET is not configured." |
| AuthRoutes.ValidationBeforeConfiguration | server/src/routes/auth.js:20-31 | A request refused for its content gets the same 400 whether or not the secret is configured |
| AuthRoutes.Login | server/src/routes/auth.js:67-103 | Issued iff fields present, secret set, store up, row found and password matches. An issued answer is 200, the user has no hash, and the claims are `IssueClaims` of the row's id and email at `nowSec`: the token they sign lives seven days, the same as a registration token. In order: a missing field gives 400 "Email and password are required.", a missing secret 500 "JWT_SECRET is not configured.", a store failure 500 "Server error during login.". 401 "Invalid credentials." iff the email is unknown or the password is wrong |
| AuthRoutes.LoginDoesNotEnumerate | server/src/routes/auth.js:84-89 | An unknown email and a wrong password give identical answers |
| AuthRoutes.LoginFindsStoredRow | server/src/routes/auth.js:79-98 | After a row is stored, logging in with a body whose email normalises to its address and the hashed password succeeds, and the token names that row |
| AuthRoutes.LoginWithAnyCaseOrPadding | server/src/routes/auth.js:69-98 | The stored address in any ASCII casing, with any surrounding white space, and the hashed password log in as that row |
| AuthRoutes.InsertKeepsTableInv | server/src/routes/auth.js:42-49 | Inserting a new, normalised, valid email with the next id keeps every row under its email, keeps ids distinct, and keeps them below the sequence |
| AuthRoutes.UserTable.Register | server/src/routes/auth.js:14-65 | Created (201) iff the precheck passes, the store is up and the email is new. On success the new row has the next id, trimmed name, normalised email, hash, and no other row changes. The user returned has no hash; the claims are the new id and email; the token is their signature. On failure the table is unchanged and the reply follows the source order: 400s, 500 secret, 500 store, 409 |
| AuthRoutes.UserTable.constructor | server/src/db/seed.js:6-13 | An empty users table, with the `SERIAL` id sequence at 1 |
| BearerAuth.BearerToken | server/src/middleware/requireAuth.js:4-7 | A token is found only in a present header, and it is non-empty and free of spaces |
| BearerAuth.BearerTokenShape | server/src/middleware/requireAuth.js:4-11 | A header yields token `t` iff it starts with `Bearer`, one space, and `t`, where `t` is non-empty and space-free, followed by the end or a space |
| BearerAuth.BearerTokenIgnoresRest | server/src/middleware/requireAuth.js:5 | `Bearer <t> <anything>` yields `t` for a non-empty, space-free `t`: pieces after the second are ignored |
| BearerAuth.BearerTokenDoubleSpace | server/src/middleware/requireAuth.js:5-7 | `Bearer` followed by two spaces yields no token, whatever follows: the second piece is empty |
| BearerAuth.BearerTokenOtherScheme | server/src/middleware/requireAuth.js:7 | Any first piece other than exactly `Bearer` yields no token |
| BearerAuth.BearerTokenLowerCaseScheme | server/src/middleware/requireAuth.js:7 | The scheme is case-sensitive: `bearer ...` is refused |
| BearerAuth.BearerTokenMissing | server/src/middleware/requireAuth.js:4-7 | No header, or `Bearer` alone, yields no token |
| BearerAuth.Authenticate | server/src/middleware/requireAuth.js:3-20 | Attaches iff a token is present and verifies, with `id = sub` and the claims' email. Otherwise 401, with the header message or the invalid-token message |
| BearerAuth.IssuedTokenAuthenticates | server/src/middleware/requireAuth.js:13-16 | A token issued for a user and accepted by `verify`, sent as `Bearer <token>`, attaches exactly that user |
| BearerAuth.RequireAuth | server/src/middleware/requireAuth.js:3-20 | Calls next iff accepted, and then sets `req.user`. Otherwise it replies and leaves `req.user` unchanged |
| OwnerGuard.RequireOwner | server/src/middleware/requireOwner.js:17-48 | Next iff user, integer id, reachable store, a listing with that id, and its seller is the caller. 400 bad id comes before the lookup. 404 iff missing; 403 iff another seller. Store failure or missing user gives 500 |
| OwnerGuard.OneOwnerPerListing | server/src/middleware/requireOwner.js:35-41 | Two different users cannot both pass the guard for one listing |
| OwnerGuard.OwnerDecisionIsLocal | server/src/middleware/requireOwner.js:26-41 | The answer depends only on the requested listing's row |
| ListingRoutes.ActiveFiltersSpec | server/src/routes/listings.js:35-55 | Each present, non-empty field gives exactly one filter with its value, and nothing else does. Filters come in the order category, minPrice, maxPrice, brand |
| ListingRoutes.Numbered | server/src/routes/listings.js:31-55 | Filter `i` is bound to placeholder `k + i`: consecutive, one per filter |
| ListingRoutes.NumberedPlaceholdersDistinct | server/src/routes/listings.js:35-55 | The placeholders of different filters are different texts, so no two clauses name the same parameter |
| ListingRoutes.FilterParam | server/src/routes/listings.js:35-55 | The price filters, and only they, bind `toCents` of their value. The category binds its value unchanged. The brand binds `%`, its value lower-cased character by character, then `%` |
| ListingRoutes.OrderBy | server/src/routes/listings.js:59-66 | `price_asc` gives ` ORDER BY l.price_cents ASC` and `price_desc` gives ` ORDER BY l.price_cents DESC`. The clause is newest first exactly when `sort` is neither, and always starts with ` ORDER BY ` |
| ListingRoutes.WithClausesExtends | server/src/routes/listings.js:13-55 | Clauses only extend the base query, so `WHERE l.is_active = TRUE` always applies |
| ListingRoutes.ApplyFilter | server/src/routes/listings.js:35-55 | One filter block. A present field appends its clause with the next placeholder and its parameter, and advances the counter; an absent field changes nothing. Afterwards `paramIndex` is the parameter count + 1 |
| ListingRoutes.BuildListingsQuery | server/src/routes/listings.js:9-66 | query = base query + one clause per active filter numbered `$1..$n` + ` GROUP BY l.id` + the ORDER BY for `sort`. `params[i]` is the parameter of filter `i`, so `$(i+1)` binds `params[i]`; the brand is `%lower(brand)%`. Each clause's text is `ClausePrefix` of its filter kind |
| ListingRoutes.NoFiltersNoClauses | server/src/routes/listings.js:35-55 | No present field means no filter and no clause |
| ListingRoutes.AllFiltersNumbered | server/src/routes/listings.js:35-55 | All four fields present bind category, minPrice, maxPrice and brand to `$1..$4` |
| ListingRoutes.GetListing | server/src/routes/listings.js:85-126 | Found iff the store answers and an active row has the id, and then the answer is built from that stored row. 404 iff the row is missing or inactive. Otherwise 500 |
| ListingRoutes.Sellers | server/src/middleware/requireOwner.js:26-29 | The seller of each listing id, over every row, as the ownership guard looks it up |
| ListingRoutes.CreatorOwnsListing | server/src/routes/listings.js:130-154 | The caller who created a listing passes the ownership guard for it; any other user gets 403 |
| ListingRoutes.CreatedListingIsShown | server/src/routes/listings.js:105-113 | A listing just created (active) is found by GET /:id |
| ListingRoutes.ListingTable.Create | server/src/routes/listings.js:128-170 | Created iff title, a non-zero price and category are present, `condition` is one of new, like_new, good or fair (the column is NOT NULL with a CHECK list, so anything else makes the insert fail), and the store answers. The new row has the next id, the caller as seller, the body's fields, and is active; no other row changes. Otherwise nothing changes: 400 for missing fields, else 500. The missing-field test is `MissingRequired`: no title, a missing or zero price, or no category |
| ListingRoutes.ListingTable.constructor | server/src/db/seed.js:15-28 | An empty listings table, with the `SERIAL` id sequence at 1 |

## Left out

- The libraries bcrypt, jsonwebtoken, `atob` and `JSON.parse` are passed-in functions. Signature checking, secret handling and the expiry check inside `verify` are not modelled.
- `bcrypt.hash(password, 12)` adds a random salt, so two hashes of one password differ. The model's `hash` is a deterministic function. No property depends on this: login only uses `compare`.
- ClientJwt.Exp: a finite `Number(exp)` that is not an integer, such as 1.5, is not modelled, because it is floating point.
- `toLowerCase` is modelled on the ASCII letters only. Other scripts' case mappings are not modelled.
- String lengths count Unicode scalar values. JavaScript's `length` counts UTF-16 code units, so the 8-character password minimum differs for characters outside the Basic Multilingual Plane.
- Request bodies and query strings are modelled as optional strings. Non-string values (arrays, numbers passed to `String(...)`) are not modelled.
- `price_cents` is taken as an already parsed optional integer. The route's own coercion of JSON values is not modelled.
- `Number(req.params.id)` and `Number.isInteger` in requireOwner are the `Option<int>` id. Quirks such as `Number("") == 0` are not modelled.
- The numeric comparison of `seller_id` and the user id is modelled as integer equality.
- PostgreSQL's cast of the GET /:id parameter is the `Option<int>` id. A failed cast is a store error (500).
- The price filters' `Math.round(parseFloat(v) * 100)` is the parameter `toCents`, because it is floating point.
- `price_cents / 100` in the answers is not modelled, because it is floating point.
- The rows GET / returns are not modelled. They include `avg_rating` and `review_count`, for which there is no query engine here. Only the SQL text and its parameters are modelled.
- GetListing: answers with the whole stored row. The source's SELECT for GET /:id leaves out `seller_id` and `is_active`, adds `avg_rating` and `review_count`, and computes `price` from `price_cents`; that answer shape is not modelled.
- `setTimeout`, `clearTimeout` and `Date.now` are modelled as absolute deadlines and a `now` parameter. The timer callbacks are explicit `FireWarning` and `FireLogout` calls.
- TimerDelay: a positive delay is waited out in full. `setTimeout` converts its delay to a signed 32-bit integer, wrapping modulo 2^32, and runs a negative result as 0. So with 2^31 ms (about 24.8 days) up to 2^32 ms left on a token, the browser's logout timer fires at once and the session signs out immediately; the warning timer, 10 s shorter, also fires at once unless its delay stays below 2^31. Larger delays wrap to shorter ones. The model schedules both timers at their full distance.
- The React batching of state updates is not modelled: each setter is applied in program order.
- The asynchronous interleaving of hydrate with a cleanup is not modelled. The cancelled flag is a guard on sequential steps.
- Hydrate: taken as one atomic step. In the source, hydrate reads the slot before awaiting `/auth/me` and the catch block re-reads and clears it. A login that finishes while `me` is pending is then overwritten by a late success, which adopts the old token and its user while the slot holds the new token. A late failure signs that login out. Neither interleaving is modelled, and the timer invariant (`storedToken == token` under a pending logout) relies on that.
- The race between the ownership check and a later update (time of check to time of use) is not modelled.
- The register and login wrappers' rejected promise is modelled as a None answer. The rejection is not re-thrown.
- server/src/api/auth.js (the localStorage and fetch wrapper) is not part of this model. Its single token slot is the field `storedToken`.
- The `console.log` diagnostics in hydrate's catch block are not modelled, because they are output only.
- Database constraints other than the unique email and the `condition` column's NOT NULL and CHECK list are not modelled: the VARCHAR lengths of `title` and `category`, the INT range of `price_cents`, and the foreign keys. They surface only as a store failure.
- The pages, components, routing, database bootstrap and seeding, and server startup are not modelled, because each is I/O.
- The four filter blocks of GET / are modelled as four calls of one method, `ApplyFilter`. The method is instantiated per field; it is not written out four times.
