# Cab booking core, modelled and proved in Dafny

This project models the core of a cab-booking web application: an Express/Mongoose API
with a React client. Each piece of that core is one Dafny module:

- **BookingService**: the booking store. It covers creating a booking with an idempotency
  key, the status-transition table, status updates with their event and audit records,
  listing and fetching bookings under owner/admin access, the cab availability search and
  the fare.
- **AuthService**: the auth session store. It covers register, login, refresh-token
  rotation and logout over a user store and refresh-token records.
- **Validation**, **BookingSchemas**, **AuthSchemas**: the hand-written payload validator
  and the zod request schemas, as predicates with parsers into typed inputs.
- **AuthMiddleware**: Bearer-header extraction and the role gate.
- **Errors**, **Response**, **ErrorHandler**: the `ApiError` defaults, the `success` and
  `problem` response envelopes, and the mapping of any thrown error onto an `ApiError`.
- **Models**: the records and enums of the stores.
- **ClientBookings**, **AdminPage**, **Autocomplete**: the client-side derived views. These
  are the booking tabs, the admin filter and revenue breakdowns, and the location
  autocomplete.

Helper modules: `Wrappers` (Option/Result), `Json` (JSON values with JavaScript
truthiness), `Text` (trim, ASCII lower-casing, `includes`, `join`), `Seqs` (filter,
subsequence, reverse, take) and `Grouping` (the insertion-ordered `Map` of totals and the
two stable sorts the admin page applies to it).

The stores are Dafny classes. Each state-changing method is proved against a pure
specification function of the old state, e.g. `(State(), r) == RefreshSpec(old(State()), ...)`.
The promised properties are lemmas about those functions, and the store invariant
(`Valid()`) is preserved by every method.

Foreign code becomes parameters:

- bcrypt, JWT signing/verification and sha256 (`Crypto`);
- date parsing and calendar days (`parseDate`, `Clock`, `isoDay`);
- e-mail syntax (`isEmail`);
- the current time (`now`).

Generated tokens and password hashes are given values.

Three behaviours of the code are easy to miss, and the model keeps them:

- `COMPLETED` is accepted by the status schema but can never be reached through
  `updateBookingStatus` (the transition table has no edge into it).
- The admin page's `classifyBooking` also tests `Number.isNaN` on the parsed date. This is
  redundant once the parse yields a number, so both pages share one model.
- `errorHandler` replaces a foreign error's detail with `Unexpected server error.`, not the
  `ApiError` default `Unexpected error.`.

## Model

| member | source | states |
|---|---|---|
| BookingService.TransitionTable | server/src/modules/booking/service.js:9-13 | a transition is allowed exactly for PENDING→CONFIRMED, PENDING→CANCELLED and CONFIRMED→CANCELLED |
| BookingService.TerminalStatuses | server/src/modules/booking/service.js:9-13 | CANCELLED and COMPLETED (a status with no table entry gets the empty list) have no outgoing edges, and no status may move to COMPLETED |
| BookingService.TransitionsMoveForward | server/src/modules/booking/service.js:9-13 | every allowed transition strictly increases a rank, so no status is ever revisited |
| BookingService.CalculateFare | server/src/modules/booking/service.js:181-185 | the fare is 300 for AIRPORT and 200 otherwise, hence never negative |
| BookingService.CreatorRole | server/src/modules/booking/service.js:46 | the CREATED event's role is the actor's role when present and non-empty, otherwise `guest`, never empty |
| BookingService.TransitionConflict | server/src/modules/booking/service.js:134-139 | a rejected transition raises 409 `invalid_status_transition` |
| BookingService.BuildBooking | server/src/modules/booking/service.js:26-39 | `Booking.create` succeeds iff both trimmed addresses are non-empty, the time is given and the date parses; the stored booking has trimmed addresses, status PENDING, the computed fare, the actor's user id, and the given contact and selection with `''` for every field not given (all `''` when the object is absent) |
| BookingService.ContactFrom | server/models/Booking.js:18-22 | `payload.contact`, or `{}` when absent, stored with `default: ''`: each given field is kept, each missing one is `''` |
| BookingService.SelectionFrom | server/models/Booking.js:23-27 | `payload.selection`, or `{}` when absent, stored with `default: ''`: each given field is kept, each missing one is `''`; other keys are not stored |
| BookingService.ReplayLookup | server/src/modules/booking/service.js:19-24 | a stored response is found iff a non-empty key was sent and the (key, user id, endpoint) triple is stored |
| BookingService.CreateSpec | server/src/modules/booking/service.js:15-67 | `createBooking` as a function of the stores; its meaning is stated by ReplayWritesNothing, FreshCreateWritesOneOfEach, RetryReplaysFirstResponse and CreatePreservesValid |
| BookingService.ReplayWritesNothing | server/src/modules/booking/service.js:19-24 | a stored key replays the stored booking and status, and no store changes |
| BookingService.FreshCreateWritesOneOfEach | server/src/modules/booking/service.js:26-66 | a fresh create appends exactly one booking and one CREATED event, adds a 201 key record only when a key was given, writes no audit entry, and the booking is PENDING with fare ≥ 0 |
| BookingService.RetryReplaysFirstResponse | server/src/modules/booking/service.js:15-66 | after a successful create with a key, retrying with that key, whatever the new body, replays the first booking with status 201 and writes nothing |
| BookingService.KeysAreScopedByUser | server/models/IdempotencyKey.js:11 | a key stored by one user never changes what another user's lookup of the same key finds |
| BookingService.CreatePreservesValid | server/src/modules/booking/service.js:15-67 | creating a booking keeps the store invariant (ids, references, enums and key records) |
| BookingService.HttpStatusFor | server/src/modules/booking/routes.js:23 | a fresh create answers 201 and a replay answers its stored status |
| BookingService.CreateAnswers201 | server/src/modules/booking/routes.js:23 | on a valid store every successful create, fresh or replayed, answers 201 |
| BookingService.UpdateSpec | server/src/modules/booking/service.js:126-179 | `updateBookingStatus` as a function of the stores; its meaning is stated by UnknownBookingNotFound, RejectedTransitionChangesNothing, SuccessfulUpdateRecordsTransition and UpdatePreservesValid |
| BookingService.UnknownBookingNotFound | server/src/modules/booking/service.js:126-130 | an unknown id raises 404 `booking_not_found` and changes nothing |
| BookingService.RejectedTransitionChangesNothing | server/src/modules/booking/service.js:132-140 | a transition outside the table raises the 409 conflict and changes nothing; success implies an allowed transition |
| BookingService.CompletingIsAlwaysRefused | server/src/modules/booking/service.js:132-140 | every update to COMPLETED of an existing booking fails with 409 and writes nothing |
| BookingService.SuccessfulUpdateRecordsTransition | server/src/modules/booking/service.js:142-178 | a successful update sets only that booking's status, and appends one STATUS_CHANGED event and one BOOKING_STATUS_UPDATED audit entry, both with from = previous status and to = new status |
| BookingService.UpdatePreservesValid | server/src/modules/booking/service.js:126-179 | a status update keeps the store invariant |
| BookingService.BookingStore.constructor | server/src/modules/booking/service.js:1-6 | an empty store with the given routes and cabs is valid |
| BookingService.BookingStore.CreateBooking | server/src/modules/booking/service.js:15-67 | the new state and the result are those of the create specification; routes and cabs are untouched |
| BookingService.BookingStore.UpdateBookingStatus | server/src/modules/booking/service.js:126-179 | the new state and the result are those of the update specification |
| BookingService.VisibleNewestFirst | server/src/modules/booking/service.js:105-111 | only bookings the viewer may see, all taken from the store |
| BookingService.ListBookings | server/src/modules/booking/service.js:105-111 | the first min(100, n) visible bookings, newest first |
| BookingService.VisibleAreListed | server/src/modules/booking/service.js:105-111 | every booking the viewer may see appears in the newest-first visible list, before the limit is applied |
| BookingService.NewestFirstIsOrdered | server/src/modules/booking/service.js:107-110 | the visible list is in strictly decreasing creation order |
| BookingService.ListShowsTheNewest | server/src/modules/booking/service.js:107-110 | a visible booking left out of the list is older than all 100 listed ones; with at most 100 visible, all are listed |
| BookingService.AdminSeesEverything | server/src/modules/booking/service.js:106-108 | an admin's visible list is the whole store, newest first |
| BookingService.GetBookingById | server/src/modules/booking/service.js:113-124 | an unknown id gives 404; otherwise the booking is returned iff the actor is admin or its owner, else 403 |
| BookingService.ListedBookingsCanBeFetched | server/src/modules/booking/service.js:105-124 | every booking in a viewer's list can be fetched by its id by that same viewer |
| BookingService.SearchOptions | server/src/modules/booking/service.js:69-103 | every route, newest first; a cab is offered iff it is available on the search date, and the offered cabs keep the newest-first order of the collection |
| BookingService.AvailableOn | server/src/modules/booking/service.js:75-80 | a cab is available on a date when each window bound is absent or holds inclusively, and on no date at all every cab is; its meaning in the search is stated by SearchOptions, OneDayWindowOffered and EndedWindowExcluded |
| BookingService.OneDayWindowOffered | server/src/modules/booking/service.js:76-79 | both bounds are inclusive (`$lte`/`$gte`): a cab whose window opens and closes on the pickup date is offered by the search |
| BookingService.EndedWindowExcluded | server/src/modules/booking/service.js:78 | a cab whose window closed the day before the pickup date is not offered |
| BookingService.NoDateOffersEveryCab | server/src/modules/booking/service.js:70-75 | without a valid pickup date every cab is offered, newest first |
| AuthService.FindUser | server/src/modules/auth/service.js:30 | `findOne` by e-mail: the first user with that e-mail, or none iff none has it |
| AuthService.VerifyRefresh | server/src/modules/auth/tokens.js:16-18 | a refresh token verifies at `now` iff it decodes and `now` is before its `exp` seconds as milliseconds, and then yields its decoded claims; an expired token is refused like a forged one |
| AuthService.FindActive | server/src/modules/auth/service.js:52-57 | the first record for the user and hash that is unrevoked and expires after now, or none iff there is none |
| AuthService.ViewOf | server/src/modules/auth/service.js:98-103 | the returned user carries id, name, e-mail and role |
| AuthService.RevokeAt | server/src/modules/auth/service.js:63-64 | revoking one record stamps `revokedAt = now` on it and changes no other record |
| AuthService.RevokeAll | server/src/modules/auth/service.js:76 | `updateMany` revokes, at `now`, every unrevoked record with the hash |
| AuthService.SessionSpec | server/src/modules/auth/service.js:80-107 | `createSession` as a function of the store; stated by SessionAppendsOneRecord and SessionPreservesValid |
| AuthService.RegisterSpec | server/src/modules/auth/service.js:7-27 | `register`; stated by DuplicateEmailRejected, RegisterCreatesUser and RegisterPreservesValid |
| AuthService.LoginSpec | server/src/modules/auth/service.js:29-41 | `login`; stated by LoginFailuresIndistinguishable and LoginPreservesValid |
| AuthService.RefreshSpec | server/src/modules/auth/service.js:43-72 | `refresh`; stated by RefreshNeedsAnActiveRecord, RefreshRevokesBeforeLookup, RotatedTokenCannotBeReplayed, DuplicateHashAllowsReplay, ReissuedTokenAllowsReplay and RefreshPreservesValid |
| AuthService.SessionAppendsOneRecord | server/src/modules/auth/service.js:80-107 | a session appends exactly one unrevoked record holding the hash of the new refresh token and its expiry in ms, and returns the user view with both tokens |
| AuthService.DuplicateEmailRejected | server/src/modules/auth/service.js:8-16 | an e-mail whose lower-case form is taken raises 409 `email_exists` and changes nothing |
| AuthService.RegisterCreatesUser | server/src/modules/auth/service.js:18-26 | a new user is stored with the lower-cased e-mail and role `user`, then issued a session |
| AuthService.LoginFailuresIndistinguishable | server/src/modules/auth/service.js:29-41 | an unknown e-mail and a wrong password both give the identical 401 `invalid_credentials`, with no state change, and nothing else does |
| AuthService.RefreshNeedsAnActiveRecord | server/src/modules/auth/service.js:43-61 | a failed verification, an expired token included, gives 401 `invalid_refresh`; otherwise no active matching record ⇔ 401 `refresh_inactive` with no change |
| AuthService.RefreshRevokesBeforeLookup | server/src/modules/auth/service.js:63-69 | the consumed record is revoked and nothing else changes, even when the user lookup then fails with `user_not_found` |
| AuthService.RotatedTokenCannotBeReplayed | server/src/modules/auth/service.js:51-71 | after a successful refresh, replaying the same token at the same or a later instant fails and writes nothing: with `refresh_inactive` before the token's expiry (given a single active record for it and a new refresh token of a different hash), and with `invalid_refresh` from its expiry on |
| AuthService.DuplicateHashAllowsReplay | server/models/RefreshToken.js:5 | with two active records of the same hash, the token can be refreshed twice (the hash is not unique) |
| AuthService.ReissuedTokenAllowsReplay | server/src/modules/auth/service.js:80-95 | when the refresh re-issues a token with the consumed token's hash (the signed payload is only `sub`, `role`, `email` with whole-second times, so this happens within one second), the old token finds an active record again until the new expiry |
| AuthService.LogoutDeactivatesHash | server/src/modules/auth/service.js:74-78 | after logout no record with the hash is active for any user at any later time |
| AuthService.LogoutTouchesNothingElse | server/src/modules/auth/service.js:76 | records with another hash or already revoked are unchanged, and only `revokedAt` ever changes |
| AuthService.LogoutIdempotent | server/src/modules/auth/service.js:76 | logging out twice leaves the records as logging out once |
| AuthService.RegisterPreservesValid | server/src/modules/auth/service.js:7-27 | register keeps the invariant: ids are positions, e-mails lower-case and unique, and tokens refer to users |
| AuthService.LoginPreservesValid | server/src/modules/auth/service.js:29-41 | login keeps the store invariant |
| AuthService.RefreshPreservesValid | server/src/modules/auth/service.js:43-72 | refresh keeps the store invariant |
| AuthService.LogoutPreservesValid | server/src/modules/auth/service.js:74-78 | logout keeps the store invariant |
| AuthService.AuthStore.Register | server/src/modules/auth/service.js:7-27 | the new store and the result are those of the register specification |
| AuthService.AuthStore.Login | server/src/modules/auth/service.js:29-41 | the new store and the result are those of the login specification |
| AuthService.AuthStore.Refresh | server/src/modules/auth/service.js:43-72 | the new store and the result are those of the refresh specification |
| AuthService.AuthStore.Logout | server/src/modules/auth/service.js:74-78 | the records become their pointwise revocation by hash, users are untouched, and the answer is `loggedOut: true` |
| AuthService.AuthStore.CreateSession | server/src/modules/auth/service.js:80-107 | the new store and the result are those of the session specification |
| AuthMiddleware.BearerToken | server/src/middleware/auth.js:6-7 | a token is extracted iff the header starts with `Bearer ` and has something after it; the header is then `Bearer ` + token |
| AuthMiddleware.AuthDecision | server/src/middleware/auth.js:9-28 | no token gives 401 `missing_token`; a token that does not verify gives 401 `invalid_token`; otherwise its claims |
| AuthMiddleware.MissingTokenNeverVerifies | server/src/middleware/auth.js:9-16 | without a Bearer token the verifier is never consulted |
| AuthMiddleware.BareBearerIsMissing | server/src/middleware/auth.js:6-9 | `Bearer ` alone, another scheme and no header are all a missing token |
| AuthMiddleware.RequireRole | server/src/middleware/auth.js:32-44 | passes iff there is a user whose role is listed; otherwise 403 `forbidden` |
| AuthMiddleware.Request.Authenticate | server/src/middleware/auth.js:4-30 | sets `req.user` to the claims on success, and otherwise reports the error with `req.user` unchanged |
| Validation.IsNonEmptyString | server/utils/validation.js:3-5 | a string with some non-whitespace character; its meaning is Text.TrimEmptyIffAllWhitespace, and HasTextWhen shows one such character suffices |
| Validation.Outcomes | server/utils/validation.js:11-36 | one outcome per check, in source order, each the check's failure condition |
| Validation.ValidateBookingPayload | server/utils/validation.js:7-42 | the errors are the messages of the failing checks in order, and `valid` iff there are none |
| Validation.ErrorReportedIffCheckFails | server/utils/validation.js:11-36 | each message is reported iff its check fails |
| Validation.ErrorsInCheckOrder | server/utils/validation.js:11-36 | the reported messages keep check order, at most one each |
| Validation.DateErrorsExclusive | server/utils/validation.js:23-36 | "pickupDate is required" and "must be a valid date" are never reported together |
| Validation.AcceptedIffEveryCheckPasses | server/utils/validation.js:38-41 | valid iff every one of the six checks passes |
| Validation.EmptyPayloadFiveErrors | server/utils/validation.js:9 | an absent, null or empty payload gets exactly the first five messages, in order |
| Validation.CompletePayloadAccepted | server/utils/validation.js:11-36 | with a known trip type and non-blank fields, a payload is accepted iff its date parses |
| Validation.ValidSampleAccepted | server/test/validation.test.js:5-16 | the accepted sample payload gets no errors whenever its date parses |
| Validation.MalformedSampleRejected | server/test/validation.test.js:18-28 | the rejected sample payload gets at least four errors, whatever the date parser does |
| Validation.BlankAndMissingFieldsRejected | server/utils/validation.js:11-29 | an unknown trip type, a blank pickup, a missing dropoff and a blank time give at least four errors |
| BookingSchemas.PhoneDigits | server/src/modules/booking/schemas.js:21 | the optional leading `+` is dropped before counting digits |
| BookingSchemas.PlusSignOptional | server/src/modules/booking/schemas.js:21 | a number is a phone with a leading `+` iff it is one without |
| BookingSchemas.PhoneRejections | server/src/modules/booking/schemas.js:21 | too few digits, a letter and a bare `+` are rejected |
| BookingSchemas.BookingCreateSchema | server/src/modules/booking/schemas.js:6-31 | the create schema; its meaning is stated by ParseBookingCreate and DraftRoundTrip |
| BookingSchemas.PublicBookingSchema | server/src/modules/booking/schemas.js:33-39 | the public schema; stated by PublicIsCreateWithFullContact |
| BookingSchemas.PublicIsCreateWithFullContact | server/src/modules/booking/schemas.js:33-39 | the public schema is the create schema with name, e-mail and phone all required |
| BookingSchemas.StatusSchemaAcceptsExactlyTheStatuses | server/src/modules/booking/schemas.js:41-43 | a status body passes iff its status is one of the four names, COMPLETED included |
| BookingSchemas.ParseBookingCreate | server/src/modules/booking/schemas.js:6-31 | a draft is parsed iff the body passes the create schema, with the minimum lengths holding |
| BookingSchemas.ContactRoundTrip | server/src/modules/booking/schemas.js:18-22 | a contact rendered as JSON parses back to itself and passes iff it conforms |
| BookingSchemas.SelectionRoundTrip | server/src/modules/booking/schemas.js:23-30 | a selection rendered as JSON parses back to itself and passes iff it conforms |
| BookingSchemas.DraftRoundTrip | server/src/modules/booking/schemas.js:6-31 | a draft's JSON parses back to the draft iff the draft conforms, and is rejected otherwise |
| AuthSchemas.RegisterSchema | server/src/modules/auth/schemas.js:3-7 | the register schema; stated by ParseRegister, RegisteredCredentialsPassLogin and PasswordOutsideBoundsRejected |
| AuthSchemas.LoginSchema | server/src/modules/auth/schemas.js:9-12 | the login schema; stated by ParseLogin and PasswordOutsideBoundsRejected |
| AuthSchemas.RefreshSchema | server/src/modules/auth/schemas.js:14-16 | the refresh schema; stated by ParseRefreshToken |
| AuthSchemas.ParseRegister | server/src/modules/auth/schemas.js:3-7 | accepted iff name ≥ 2, e-mail valid and 8 ≤ password ≤ 128 |
| AuthSchemas.ParseLogin | server/src/modules/auth/schemas.js:9-12 | accepted iff e-mail valid and 8 ≤ password ≤ 128 |
| AuthSchemas.ParseRefreshToken | server/src/modules/auth/schemas.js:14-16 | accepted iff the refresh token has at least 20 characters |
| AuthSchemas.RegisteredCredentialsPassLogin | server/src/modules/auth/schemas.js:3-12 | a body that passes registration passes login with the same credentials |
| AuthSchemas.PasswordOutsideBoundsRejected | server/src/modules/auth/schemas.js:6-11 | a password outside 8..128 characters fails both schemas |
| Errors.NewApiError | server/src/lib/errors.js:1-10 | each missing field takes its default (500, `Internal Server Error`, `Unexpected error.`, `internal_error`, no field errors), and the message is the detail |
| Errors.DefaultError | server/src/lib/errors.js:2-3 | `new ApiError()` is the all-defaults error |
| Errors.SuppliedFieldsKept | server/src/lib/errors.js:2-8 | supplied fields are kept as given |
| Errors.Raise | server/src/lib/errors.js:2-8 | an error built from all four fields keeps them, with no field errors |
| Response.RequestIdOf | server/src/lib/response.js:8 | the request id is present iff `res.locals.requestId` is truthy |
| Response.Success | server/src/lib/response.js:1-10 | `success: true`, the data, no error, a falsy meta becomes null, status 200 by default |
| Response.StatusUri | server/src/lib/response.js:18 | the problem type is `https://httpstatuses.com/` followed by the status |
| Response.StatusUriInjective | server/src/lib/response.js:18 | different statuses give different type URIs |
| Response.ProblemStatus | server/src/lib/response.js:13 | the response status is never 0 (a falsy status falls back to 500), and any non-zero status is kept |
| Response.Problem | server/src/lib/response.js:12-28 | `success: false`, null data and meta, and an error body whose status equals the HTTP status, with every falsy field defaulted |
| Response.ProblemKeepsApiError | server/src/lib/response.js:12-28 | an ApiError with truthy fields is rendered unchanged |
| ErrorHandler.AsApiError | server/src/middleware/errorHandler.js:6-13 | an ApiError passes through; anything else becomes a 500 `internal_error` |
| ErrorHandler.HandleError | server/src/middleware/errorHandler.js:5-24 | the log records the ApiError's status and the original message, and the response is `problem` of the ApiError |
| ErrorHandler.ForeignErrorsAreOpaque | server/src/middleware/errorHandler.js:8-13 | two foreign errors with different messages give the same 500 response |
| ErrorHandler.ApiErrorsKeepTheirIdentity | server/src/middleware/errorHandler.js:6-23 | an ApiError's status, code and detail reach the client |
| ErrorHandler.LoggedStatusMatchesResponse | server/src/middleware/errorHandler.js:19-23 | the logged status equals the sent one iff the error's status is not 0 |
| Models.TripTypeRoundTrip | server/models/Booking.js:5 | the trip-type names and the enum correspond one to one |
| Models.StatusRoundTrip | server/models/Booking.js:31 | the status names and the enum correspond one to one |
| Models.StatusNameInjective | server/models/Booking.js:31 | distinct statuses have distinct names |
| Models.TrimmedAddressIsStorable | server/models/Booking.js:7-11 | a non-blank address stored trimmed is non-empty and trimming again changes nothing |
| Models.EventRole | server/models/BookingEvent.js:8 | an absent role defaults to `guest` |
| Models.NewRefreshToken | server/models/RefreshToken.js:3-8 | a new record is unrevoked and holds the user, hash and expiry |
| ClientBookings.PickupTimeOr | client/src/features/booking/BookingPage.jsx:10 | the pickup time defaults to `00:00` |
| ClientBookings.ParsePickupDateTime | client/src/features/booking/BookingPage.jsx:7-17 | none iff there is no date or neither date+time nor date alone parses; the combined parse is preferred |
| ClientBookings.ClassifyBooking | client/src/features/booking/BookingPage.jsx:19-29 | `classifyBooking`; its meaning is stated by TabMeaning and NoDateIsPlanned |
| ClientBookings.InTab | client/src/features/booking/BookingPage.jsx:49-55 | one tab of `grouped`, never longer than the list; stated by TabMembers, TabPreservesOrder, TabsCount and TabsPartition |
| ClientBookings.TabMeaning | client/src/features/booking/BookingPage.jsx:19-29 | completed or cancelled is past; otherwise present on the pickup's calendar day, planned when later or unparsable, past when earlier |
| ClientBookings.NoDateIsPlanned | client/src/features/booking/BookingPage.jsx:21-22 | a booking without a pickup date that is not finished is planned |
| ClientBookings.Grouped | client/src/features/booking/BookingPage.jsx:49-55 | each tab holds its bookings in list order; the tab sizes sum to the list length and together the tabs are the list as a multiset |
| ClientBookings.TabsPartition | client/src/features/admin/AdminPage.jsx:191-197 | the three tabs together hold every booking exactly once |
| ClientBookings.TabMembers | client/src/features/admin/AdminPage.jsx:39-49 | a booking is in a tab iff it is in the list and classified into that tab |
| ClientBookings.TabPreservesOrder | client/src/features/admin/AdminPage.jsx:191-197 | every tab is an order-preserving sub-list of the bookings |
| AdminPage.StatusBadge | client/src/features/admin/AdminPage.jsx:51-57 | `statusBadge`; stated by StatusBadgesDistinct |
| AdminPage.FilteredBookings | client/src/features/admin/AdminPage.jsx:199-214 | `filteredBookings`; stated by FilteredMembers, FilteredIsSubsequence, UnfilteredShowsTab and FieldOccurrenceMatches |
| AdminPage.Revenue | client/src/features/admin/AdminPage.jsx:216 | `revenue`; stated by MissingFaresAddNothing, RevenueNonNegative and the breakdowns, whose totals add up to it |
| AdminPage.StatusBadgesDistinct | client/src/features/admin/AdminPage.jsx:51-57 | CONFIRMED, COMPLETED and CANCELLED get three distinct badges, and every other status gets the one amber badge |
| AdminPage.FilteredIsSubsequence | client/src/features/admin/AdminPage.jsx:199-214 | the filtered list is an order-preserving sub-list of the active tab |
| AdminPage.UnfilteredShowsTab | client/src/features/admin/AdminPage.jsx:210-211 | an empty query and the `ALL` filter show the whole tab |
| AdminPage.FilteredMembers | client/src/features/admin/AdminPage.jsx:202-212 | a shown booking is in the tab and has the filtered status (unless `ALL`); its lower-cased joined fields contain the lower-cased query (unless empty); every tab booking passing both is shown |
| AdminPage.FieldOccurrenceMatches | client/src/features/admin/AdminPage.jsx:202-210 | a query occurring in any one non-empty searched field finds the booking |
| AdminPage.MissingFaresAddNothing | client/src/features/admin/AdminPage.jsx:216 | a missing fare counts as 0: the revenue equals that of the bookings with a fare |
| AdminPage.RevenueNonNegative | client/src/features/admin/AdminPage.jsx:216 | with no negative fare (the record's minimum of 0) the revenue is not negative |
| AdminPage.AmountsFor | client/src/features/admin/AdminPage.jsx:219-222 | the amounts collected under a key add up to the revenue of the bookings with that key |
| AdminPage.RevenueBy | client/src/features/admin/AdminPage.jsx:229-235 | one entry per key that occurs, in the order the keys first occur among the bookings, each the full revenue of its key, all adding up to the revenue |
| AdminPage.RevenueByCab | client/src/features/admin/AdminPage.jsx:229-236 | per cab type (`Unknown` when absent), in the order the cab types first occur: distinct keys covering every cab type that occurs, each the full sum of its bookings, adding up to `revenue` |
| AdminPage.RevenueByDay | client/src/features/admin/AdminPage.jsx:217-227 | one row per day key, in strictly ascending key order, each the full sum of its day, adding up to `revenue` |
| AdminPage.RevenueByRoute | client/src/features/admin/AdminPage.jsx:238-248 | at most 5 routes, in non-increasing total order, each the full sum for its route; all routes when fewer than 5; no route left out earns more than a shown one |
| AdminPage.SortKeepsTotals | client/src/features/admin/AdminPage.jsx:224-226 | sorting the `Map` entries keeps the entries, the keys and the sum, and orders them |
| AdminPage.TopPrefix | client/src/features/admin/AdminPage.jsx:246-247 | the first n of a descending sort do not increase, and nothing behind them has a larger total |
| Grouping.AccumulateTotals | client/src/features/admin/AdminPage.jsx:218-224 | the `Map` after the loop has distinct keys, one per key seen, each total the sum of that key's amounts, adding up to the sum of all amounts |
| Grouping.TotalsInFirstSeenOrder | client/src/features/admin/AdminPage.jsx:218-224 | the `Map`'s keys, read back, are the bookings' keys with repeats dropped, each where it first occurs (insertion order, and `set` on a present key keeps its place) |
| Grouping.TotalsFacts | client/src/features/admin/AdminPage.jsx:219-223 | the same facts of the `Map`, by induction over the `set` calls |
| Grouping.UpsertFacts | client/src/features/admin/AdminPage.jsx:222 | one `map.set` of the key's previous total (0 when absent) plus the amount keeps keys distinct, adds the key, adds the amount to that key's entry and the total, and leaves other entries alone |
| Grouping.SortBySorted | client/src/features/admin/AdminPage.jsx:224-226 | the stable sort orders the entries by its comparator |
| Grouping.SortByPermutes | client/src/features/admin/AdminPage.jsx:224-226 | the sort is a permutation with the same sum of totals |
| Grouping.SortByKeepsKeysDistinct | client/src/features/admin/AdminPage.jsx:224-226 | sorting keeps the keys distinct |
| Grouping.AscendingKeys | client/src/features/admin/AdminPage.jsx:226 | sorted by `a.date > b.date ? 1 : -1` with distinct keys, the keys are strictly ascending |
| Grouping.KeyLessTotal | client/src/features/admin/AdminPage.jsx:226 | string `<` orders any two different keys one way or the other |
| Autocomplete.Filtered | client/src/components/AutocompleteDropdown.jsx:47-56 | at most 20 items; empty for an empty query or a trimmed length under 3; otherwise the first min(20, n) matches |
| Autocomplete.SuggestionsMatch | client/src/components/AutocompleteDropdown.jsx:49-54 | every suggestion is a loaded location whose lower-cased name, hub or joined keywords contain the lower-cased, untrimmed query |
| Autocomplete.FewMatchesAllShown | client/src/components/AutocompleteDropdown.jsx:55 | with at most 20 matches all are suggested |
| Autocomplete.PaddedShortQueryYieldsNothing | client/src/components/AutocompleteDropdown.jsx:48 | `"  ab  "` has raw length 6 but yields nothing |
| Autocomplete.SuggestionsOpenTheList | client/src/components/AutocompleteDropdown.jsx:75-83 | whenever the typed text has suggestions, its trimmed length is at least 3, so typing opens the list |
| Autocomplete.AutocompleteInput.constructor | client/src/components/AutocompleteDropdown.jsx:15-16 | the box starts with the selected value's name, or `""`, and closed |
| Autocomplete.AutocompleteInput.Input | client/src/components/AutocompleteDropdown.jsx:72-77 | stores the text, opens iff its trimmed length is ≥ 3, clears the selection iff the text is empty and a handler exists, and then shows exactly the text's suggestions |
| Autocomplete.AutocompleteInput.Close | client/src/components/AutocompleteDropdown.jsx:37-45 | clicking outside (and, likewise, focusing the input) closes the list and keeps the typed text |
| Autocomplete.AutocompleteInput.Select | client/src/components/AutocompleteDropdown.jsx:58-61 | closes the list and reports the item when a handler exists |
| Autocomplete.AutocompleteInput.ValueChanged | client/src/components/AutocompleteDropdown.jsx:33-35 | a new value replaces the query with its name, or `""` |
| Text.TrimIsTrimmedSlice | server/utils/validation.js:4 | `trim` removes exactly the leading and trailing ECMAScript whitespace |
| Text.TrimEmptyIffAllWhitespace | server/utils/validation.js:4 | `trim().length > 0` iff some character is not whitespace |
| Text.ContainsIff | client/src/features/admin/AdminPage.jsx:210 | `includes` holds iff the needle occurs at some offset |

## Left out

- Persistence and I/O: Mongoose, the database connection and the seed and migration
  scripts are not modelled. The stores are in-memory sequences and maps. A booking's id is
  its position, and creation order is id order.
- Concurrency: everything is sequential. The race on the idempotency unique index and the
  client's single-flight refresh are out.
- Express routers and app wiring are out, except the replay status choice
  (server/src/modules/booking/routes.js:23). Metrics, logging, the rate limiter and the
  request id middleware are out.
- Crypto and tokens are function parameters or given values: bcrypt hash and compare, JWT
  signing, the signature check and decoding of JWT verification, sha256. The expiry check of
  refresh-token verification is modelled (`AuthService.VerifyRefresh`); `clockTolerance` and
  the other `jwt.verify` options are not, since the code passes none.
- The JWT `sub` cast of a malformed id is not modelled; a user id is a natural number.
- The cast of a booking id is not modelled: a booking id is a natural number. The route
  accepts any id of 12 or more characters (server/src/modules/booking/routes.js:11), and
  `Booking.findById` on one that is not an ObjectId throws a cast error. errorHandler then
  answers 500 `internal_error`, not 404 `booking_not_found`; the model has only the 404 path.
- The `required` check on `tokenHash` is not modelled; a sha256 hex digest is never empty.
- The User model (server/models/User.js) is not part of this model beyond the fields the
  auth service reads and writes.
- Dates and times: parsing, comparison, local calendar days and ISO days are parameters.
  Instants are integers in milliseconds.
- Floats: the cab multiplier and the route distance and eta are not modelled. Routes and
  cabs are opaque records, apart from the cab availability window.
- Text: lower-casing is ASCII only, and lengths count code points rather than UTF-16 units.
- JavaScript values: `null` and `undefined` are not distinguished where the code treats
  them alike. An absent string is `""` wherever the code only tests truthiness.
- Exact messages: a foreign error's message text is an opaque string.
- UI: rendering, charts, modals, the booking form, the login pages and the periodic
  reload are out, as are the audit-log tab grouping (`groupedLogs`) and the
  `handleStatusUpdate`/`handleCreate*` handlers of the admin page.
- Autocomplete: the 200 ms debounce timer is out, so suggestions are those of the settled
  query. Loading the location list over the network is out.
- Modelled as a value: the admin revenue breakdowns are computed with the same
  accumulation method (`Grouping.AccumulateTotals`) over a list of (key, amount) pairs,
  not by iterating the bookings directly.
- AdminPage.RevenueByRoute: among routes with equal totals, the contract does not state which
  ones make the top five.
