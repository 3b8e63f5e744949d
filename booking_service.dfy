/** The booking lifecycle service (server/src/modules/booking/service.js): idempotent booking
    creation, status updates gated by the transition table, the owner/admin read rules and
    the availability search. The persistent collections are the fields of `BookingStore`;
    each state change is specified by a pure function over `Stores`, about which the
    lemmas below are proved. Bookings are stored in creation order and a booking's id is its
    position, so "newest first" is the reverse of storage order. */
module BookingService {
  import opened Wrappers
  import opened Models
  import opened Errors
  import Text
  import Seqs
  import BookingSchemas

  // ---------------------------------------------------------------- transitions

  /** `ALLOWED_TRANSITIONS`: `COMPLETED` has no entry at all. */
  const AllowedTransitions: map<Status, seq<Status>> :=
    map[Pending := [Confirmed, Cancelled], Confirmed := [Cancelled], Cancelled := []]

  /** `ALLOWED_TRANSITIONS[status] || []`. */
  function AllowedFrom(from: Status): seq<Status>
  {
    if from in AllowedTransitions then AllowedTransitions[from] else []
  }

  predicate CanTransition(from: Status, to: Status)
  {
    to in AllowedFrom(from)
  }

  /** The whole table: pending bookings may be confirmed or cancelled, confirmed ones
      cancelled, and nothing else is allowed. */
  lemma TransitionTable(from: Status, to: Status)
    ensures CanTransition(from, to)
            <==> (from == Pending && (to == Confirmed || to == Cancelled)) || (from == Confirmed && to == Cancelled)
  {
  }

  /** `CANCELLED` and `COMPLETED` (through the `|| []` default) are terminal, and
      `COMPLETED` is never a target. */
  lemma TerminalStatuses(from: Status)
    ensures AllowedFrom(Cancelled) == [] && AllowedFrom(Completed) == []
    ensures !CanTransition(from, Completed)
  {
  }

  /** Position of a status along the lifecycle. */
  function Rank(s: Status): nat
  {
    match s
    case Pending => 0
    case Confirmed => 1
    case Cancelled => 2
    case Completed => 3
  }

  /** Every allowed transition moves forward, so no status is ever revisited and a
      booking changes status at most twice. */
  lemma TransitionsMoveForward(from: Status, to: Status)
    requires CanTransition(from, to)
    ensures Rank(from) < Rank(to) && from != to
  {
    TransitionTable(from, to);
  }

  // ---------------------------------------------------------------- fare

  const BaseFare := 100

  /** `calculateFare`: a base of 100 plus a surge of 200 for airport trips and 100 otherwise. */
  function CalculateFare(t: TripType): (fare: int)
    ensures fare >= 0
    ensures t == Airport ==> fare == 300
    ensures t != Airport ==> fare == 200
  {
    var surge := if t == Airport then 200 else 100;
    BaseFare + surge
  }

  // ---------------------------------------------------------------- records written

  const BookingsEndpoint := "/api/v1/bookings"
  const CreatedStatus := 201

  /** The caller as the routes pass it; any part may be missing. */
  datatype Actor = Actor(userId: Option<UserId>, role: Option<string>, email: Option<string>)

  /** `actor?.userId || null`. */
  function ActorUserId(actor: Option<Actor>): Option<UserId>
  {
    if actor.Some? then actor.value.userId else None
  }

  /** `actor?.role || 'guest'`: an absent or empty role becomes `"guest"`. */
  function CreatorRole(actor: Option<Actor>): (role: string)
    ensures role != ""
    ensures actor.Some? && actor.value.role.Some? && actor.value.role.value != "" ==> role == actor.value.role.value
    ensures !(actor.Some? && actor.value.role.Some? && actor.value.role.value != "") ==> role == GuestRole
  {
    if actor.Some? && actor.value.role.Some? && actor.value.role.value != "" then actor.value.role.value else GuestRole
  }

  const BookingValidationFailed := "Booking validation failed"
  const EventValidationFailed := "BookingEvent validation failed"
  const AuditValidationFailed := "AuditLog validation failed"

  const BookingNotFound := Raise(404, "Not Found", "Booking not found.", "booking_not_found")
  const BookingForbidden := Raise(403, "Forbidden", "Cannot access this booking.", "booking_forbidden")

  function TransitionConflict(from: Status, to: Status): (e: ApiError)
    ensures e.status == 409 && e.code == "invalid_status_transition"
  {
    Raise(409, "Conflict", "Invalid status transition from " + StatusName(from) + " to " + StatusName(to) + ".",
          "invalid_status_transition")
  }

  /** `payload.contact || {}` saved with empty-string defaults: every field not given is `""`. */
  function ContactFrom(c: Option<BookingSchemas.ContactInput>): (r: Contact)
    ensures c.None? ==> r == Contact("", "", "")
    ensures c.Some? ==> r.name == c.value.name.GetOr("") && r.email == c.value.email.GetOr("")
                        && r.phone == c.value.phone.GetOr("")
  {
    if c.None? then EmptyContact
    else Contact(c.value.name.GetOr(""), c.value.email.GetOr(""), c.value.phone.GetOr(""))
  }

  /** `payload.selection || {}` saved with empty-string defaults; the keys the booking
      record does not declare (multiplier, hubs) are not stored. */
  function SelectionFrom(s: Option<BookingSchemas.SelectionInput>): (r: Selection)
    ensures s.None? ==> r == Selection("", "", "")
    ensures s.Some? ==> r.route == s.value.route.GetOr("") && r.cabType == s.value.cabType.GetOr("")
                        && r.carModel == s.value.carModel.GetOr("")
  {
    if s.None? then EmptySelection
    else Selection(s.value.route.GetOr(""), s.value.cabType.GetOr(""), s.value.carModel.GetOr(""))
  }

  /** `Booking.create(...)` for a draft: addresses trimmed, the date converted by `parseDate`,
      the computed fare, status `PENDING`. Saving fails when a trimmed address or the pickup
      time is empty or the date does not convert. */
  function BuildBooking(draft: BookingSchemas.BookingDraft, id: BookingId, userId: Option<UserId>,
                        parseDate: string -> Option<int>): (r: Result<Booking, Thrown>)
    ensures r.Success? <==> Text.Trim(draft.pickupAddress) != "" && Text.Trim(draft.dropoffAddress) != ""
                            && draft.pickupTime != "" && parseDate(draft.pickupDate).Some?
    ensures r.Failure? ==> r.error == Foreign(BookingValidationFailed)
    ensures r.Success? ==> var b := r.value;
      && ValidBooking(b) && b.id == id && b.userId == userId && b.status == Pending
      && b.tripType == draft.tripType && b.fare == CalculateFare(draft.tripType)
      && b.pickupAddress == Text.Trim(draft.pickupAddress) && b.dropoffAddress == Text.Trim(draft.dropoffAddress)
      && b.pickupDate == parseDate(draft.pickupDate).value && b.pickupTime == draft.pickupTime
      && b.contact == ContactFrom(draft.contact) && b.selection == SelectionFrom(draft.selection)
    ensures r.Success? && draft.contact.None? ==> r.value.contact == Contact("", "", "")
    ensures r.Success? && draft.selection.None? ==> r.value.selection == Selection("", "", "")
  {
    var pickup := Text.Trim(draft.pickupAddress);
    var dropoff := Text.Trim(draft.dropoffAddress);
    var date := parseDate(draft.pickupDate);
    if pickup == "" || dropoff == "" || draft.pickupTime == "" || date.None? then
      Failure(Foreign(BookingValidationFailed))
    else
      TrimmedAddressIsStorable(draft.pickupAddress);
      TrimmedAddressIsStorable(draft.dropoffAddress);
      Success(Booking(id, userId, draft.tripType, pickup, dropoff, date.value, draft.pickupTime,
                      ContactFrom(draft.contact), SelectionFrom(draft.selection),
                      CalculateFare(draft.tripType), Models.DefaultStatus))
  }

  function CreatedEvent(b: Booking, actor: Option<Actor>, requestId: string): BookingEvent
  {
    BookingEvent(b.id, EventType.Created, EventActor(ActorUserId(actor), CreatorRole(actor)),
                 CreatedPayload(b.status, b.tripType), requestId)
  }

  function StatusEvent(id: BookingId, actor: Actor, from: Status, to: Status, requestId: string): BookingEvent
  {
    BookingEvent(id, StatusChanged, EventActor(actor.userId, EventRole(actor.role)), TransitionPayload(from, to), requestId)
  }

  /** The audit actor needs a user id, a role and an e-mail. */
  predicate AuditActorComplete(actor: Actor)
  {
    actor.userId.Some? && actor.role.Some? && actor.role.value != "" && actor.email.Some? && actor.email.value != ""
  }

  function AuditEntry(id: BookingId, actor: Actor, from: Status, to: Status, requestId: string): AuditLog
    requires AuditActorComplete(actor)
  {
    AuditLog(StatusUpdatedAction, AuditActor(actor.userId.value, actor.role.value, actor.email.value), id, from, to, requestId)
  }

  // ---------------------------------------------------------------- store state

  /** The four collections the service writes. */
  datatype Stores = Stores(
    bookings: seq<Booking>,
    events: seq<BookingEvent>,
    auditLogs: seq<AuditLog>,
    keys: map<IdempotencyIndex, StoredResponse>)

  /** A remembered response: a user-scoped key on the bookings endpoint with status 201 and
      a valid snapshot of a booking that exists. */
  predicate KeyRecordValid(k: IdempotencyIndex, v: StoredResponse, bookingCount: nat)
  {
    k.key != "" && k.endpoint == BookingsEndpoint && v.responseStatus == CreatedStatus
    && v.booking.id < bookingCount && v.booking.userId == k.userId && ValidBooking(v.booking)
  }

  /** A saved booking at position `i`: its id is `i`, it passed the booking schema, and its
      status is one the transition table can reach. */
  predicate BookingSound(b: Booking, i: nat)
  {
    b.id == i && ValidBooking(b) && b.status != Completed
  }

  predicate BookingsValid(bs: seq<Booking>)
  {
    forall i :: 0 <= i < |bs| ==> BookingSound(bs[i], i)
  }

  predicate EventsValid(es: seq<BookingEvent>, bookingCount: nat)
  {
    forall i :: 0 <= i < |es| ==> es[i].bookingId < bookingCount && ValidEvent(es[i])
  }

  predicate AuditLogsValid(logs: seq<AuditLog>, bookingCount: nat)
  {
    forall i :: 0 <= i < |logs| ==> logs[i].targetBooking < bookingCount && ValidAuditLog(logs[i])
  }

  predicate KeysValid(keys: map<IdempotencyIndex, StoredResponse>, bookingCount: nat)
  {
    forall k :: k in keys ==> KeyRecordValid(k, keys[k], bookingCount)
  }

  /** What holds of the collections after any sequence of service calls from empty ones:
      ids are positions, every saved record passed its schema, no booking is ever
      `COMPLETED`, and every reference points to an existing booking. */
  predicate StoresValid(s: Stores)
  {
    && BookingsValid(s.bookings)
    && EventsValid(s.events, |s.bookings|)
    && AuditLogsValid(s.auditLogs, |s.bookings|)
    && KeysValid(s.keys, |s.bookings|)
  }

  lemma BookingsAppend(bs: seq<Booking>, b: Booking)
    requires BookingsValid(bs) && BookingSound(b, |bs|)
    ensures BookingsValid(bs + [b])
  {
  }

  lemma BookingsReplace(bs: seq<Booking>, id: nat, b: Booking)
    requires BookingsValid(bs) && id < |bs| && BookingSound(b, id)
    ensures BookingsValid(bs[id := b])
  {
  }

  /** References stay valid when bookings are added, and an added reference to an existing
      booking keeps them valid. */
  lemma ReferencesGrow(s: Stores, n: nat)
    requires EventsValid(s.events, |s.bookings|) && AuditLogsValid(s.auditLogs, |s.bookings|) && KeysValid(s.keys, |s.bookings|)
    requires |s.bookings| <= n
    ensures EventsValid(s.events, n) && AuditLogsValid(s.auditLogs, n) && KeysValid(s.keys, n)
  {
  }

  lemma EventsAppend(es: seq<BookingEvent>, n: nat, e: BookingEvent)
    requires EventsValid(es, n) && e.bookingId < n && ValidEvent(e)
    ensures EventsValid(es + [e], n)
  {
  }

  lemma AuditLogsAppend(logs: seq<AuditLog>, n: nat, a: AuditLog)
    requires AuditLogsValid(logs, n) && a.targetBooking < n && ValidAuditLog(a)
    ensures AuditLogsValid(logs + [a], n)
  {
  }

  lemma KeysInsert(keys: map<IdempotencyIndex, StoredResponse>, n: nat, k: IdempotencyIndex, v: StoredResponse)
    requires KeysValid(keys, n) && KeyRecordValid(k, v, n)
    ensures KeysValid(keys[k := v], n)
  {
  }

  const EmptyStores := Stores([], [], [], map[])

  lemma EmptyStoresValid()
    ensures StoresValid(EmptyStores)
  {
  }

  // ---------------------------------------------------------------- createBooking

  datatype CreateOutcome =
    | Fresh(booking: Booking)
    | Replayed(booking: Booking, replayStatus: int)

  /** The key record consulted for a request, if the key is given and non-empty. */
  function ReplayLookup(keys: map<IdempotencyIndex, StoredResponse>, key: Option<string>, userId: Option<UserId>): (r: Option<StoredResponse>)
    ensures r.Some? <==> key.Some? && key.value != "" && IdempotencyIndex(key.value, userId, BookingsEndpoint) in keys
    ensures r.Some? ==> r.value == keys[IdempotencyIndex(key.value, userId, BookingsEndpoint)]
  {
    if key.Some? && key.value != "" && IdempotencyIndex(key.value, userId, BookingsEndpoint) in keys then
      Some(keys[IdempotencyIndex(key.value, userId, BookingsEndpoint)])
    else None
  }

  /** `createBooking`: what it returns and what the collections hold afterwards. A failing
      event save leaves the booking written without its event or key record. */
  function CreateSpec(s: Stores, draft: BookingSchemas.BookingDraft, actor: Option<Actor>, requestId: string,
                      key: Option<string>, parseDate: string -> Option<int>): (Stores, Result<CreateOutcome, Thrown>)
  {
    var userId := ActorUserId(actor);
    var replay := ReplayLookup(s.keys, key, userId);
    if replay.Some? then
      (s, Success(Replayed(replay.value.booking, replay.value.responseStatus)))
    else
      var built := BuildBooking(draft, |s.bookings|, userId, parseDate);
      if built.Failure? then (s, Failure(built.error))
      else
        var b := built.value;
        var withBooking := s.(bookings := s.bookings + [b]);
        if requestId == "" then (withBooking, Failure(Foreign(EventValidationFailed)))
        else
          var withEvent := withBooking.(events := withBooking.events + [CreatedEvent(b, actor, requestId)]);
          if key.Some? && key.value != "" then
            (withEvent.(keys := withEvent.keys[IdempotencyIndex(key.value, userId, BookingsEndpoint) := StoredResponse(CreatedStatus, b)]),
             Success(Fresh(b)))
          else (withEvent, Success(Fresh(b)))
  }

  /** A remembered key replays the stored response and writes nothing. */
  lemma ReplayWritesNothing(s: Stores, draft: BookingSchemas.BookingDraft, actor: Option<Actor>, requestId: string,
                            key: string, parseDate: string -> Option<int>)
    requires key != "" && IdempotencyIndex(key, ActorUserId(actor), BookingsEndpoint) in s.keys
    ensures var stored := s.keys[IdempotencyIndex(key, ActorUserId(actor), BookingsEndpoint)];
            CreateSpec(s, draft, actor, requestId, Some(key), parseDate)
            == (s, Success(Replayed(stored.booking, stored.responseStatus)))
  {
  }

  /** A fresh creation writes exactly one booking (trimmed, priced, `PENDING`, owned by the
      actor) and one `CREATED` event carrying the actor's role or `"guest"`, and remembers
      the response under the key only when a key was given. No audit entry is written. */
  lemma FreshCreateWritesOneOfEach(s: Stores, draft: BookingSchemas.BookingDraft, actor: Option<Actor>, requestId: string,
                                   key: Option<string>, parseDate: string -> Option<int>)
    requires ReplayLookup(s.keys, key, ActorUserId(actor)).None?
    requires BuildBooking(draft, |s.bookings|, ActorUserId(actor), parseDate).Success?
    requires requestId != ""
    ensures var (s', r) := CreateSpec(s, draft, actor, requestId, key, parseDate);
            var b := BuildBooking(draft, |s.bookings|, ActorUserId(actor), parseDate).value;
            && r == Success(Fresh(b))
            && s'.bookings == s.bookings + [b]
            && s'.events == s.events + [CreatedEvent(b, actor, requestId)]
            && s'.events[|s.events|].eventType == EventType.Created
            && s'.events[|s.events|].actor.role == CreatorRole(actor)
            && s'.auditLogs == s.auditLogs
            && (key.Some? && key.value != "" ==>
                  s'.keys == s.keys[IdempotencyIndex(key.value, ActorUserId(actor), BookingsEndpoint) := StoredResponse(CreatedStatus, b)])
            && (key.None? || key.value == "" ==> s'.keys == s.keys)
            && b.fare >= 0 && b.status == Pending
  {
  }

  /** Retrying a keyed creation, with any body, replays the first response with status 201
      and writes nothing more. */
  lemma {:induction false} RetryReplaysFirstResponse(s: Stores, draft: BookingSchemas.BookingDraft, retryDraft: BookingSchemas.BookingDraft,
                                  actor: Option<Actor>, requestId: string, retryRequestId: string,
                                  key: string, parseDate: string -> Option<int>)
    requires key != ""
    requires CreateSpec(s, draft, actor, requestId, Some(key), parseDate).1.Success?
    requires CreateSpec(s, draft, actor, requestId, Some(key), parseDate).1.value.Fresh?
    ensures var (s1, r1) := CreateSpec(s, draft, actor, requestId, Some(key), parseDate);
            CreateSpec(s1, retryDraft, actor, retryRequestId, Some(key), parseDate)
            == (s1, Success(Replayed(r1.value.booking, CreatedStatus)))
  {
    var (s1, r1) := CreateSpec(s, draft, actor, requestId, Some(key), parseDate);
    var idx := IdempotencyIndex(key, ActorUserId(actor), BookingsEndpoint);
    assert ReplayLookup(s.keys, Some(key), ActorUserId(actor)).None?;
    assert s1.keys == s.keys[idx := StoredResponse(CreatedStatus, r1.value.booking)];
    ReplayWritesNothing(s1, retryDraft, actor, retryRequestId, key, parseDate);
  }

  /** Key records are scoped by user: another user's record under the same key is not a
      replay. */
  lemma KeysAreScopedByUser(keys: map<IdempotencyIndex, StoredResponse>, key: string, u1: Option<UserId>, u2: Option<UserId>, v: StoredResponse)
    requires u1 != u2
    ensures ReplayLookup(keys[IdempotencyIndex(key, u1, BookingsEndpoint) := v], Some(key), u2)
            == ReplayLookup(keys, Some(key), u2)
  {
  }

  /** Creation keeps the collections valid, whatever its outcome. */
  lemma CreatePreservesValid(s: Stores, draft: BookingSchemas.BookingDraft, actor: Option<Actor>, requestId: string,
                             key: Option<string>, parseDate: string -> Option<int>)
    requires StoresValid(s)
    ensures StoresValid(CreateSpec(s, draft, actor, requestId, key, parseDate).0)
  {
    var userId := ActorUserId(actor);
    if ReplayLookup(s.keys, key, userId).None? {
      var built := BuildBooking(draft, |s.bookings|, userId, parseDate);
      if built.Success? {
        var b := built.value;
        var n := |s.bookings| + 1;
        BookingsAppend(s.bookings, b);
        ReferencesGrow(s, n);
        var withBooking := s.(bookings := s.bookings + [b]);
        if requestId == "" {
          assert CreateSpec(s, draft, actor, requestId, key, parseDate).0 == withBooking;
        } else {
          var e := CreatedEvent(b, actor, requestId);
          EventsAppend(s.events, n, e);
          var withEvent := withBooking.(events := s.events + [e]);
          assert StoresValid(withEvent);
          if key.Some? && key.value != "" {
            var k := IdempotencyIndex(key.value, userId, BookingsEndpoint);
            KeysInsert(s.keys, n, k, StoredResponse(CreatedStatus, b));
            assert CreateSpec(s, draft, actor, requestId, key, parseDate).0 == withEvent.(keys := s.keys[k := StoredResponse(CreatedStatus, b)]);
          } else {
            assert CreateSpec(s, draft, actor, requestId, key, parseDate).0 == withEvent;
          }
        }
      }
    }
  }

  /** The status the route answers with (server/src/modules/booking/routes.js:23). */
  function HttpStatusFor(o: CreateOutcome): (status: int)
    ensures o.Fresh? ==> status == CreatedStatus
    ensures o.Replayed? ==> status == o.replayStatus
  {
    if o.Replayed? then o.replayStatus else CreatedStatus
  }

  /** On valid collections every successful creation, first or replayed, answers 201. */
  lemma CreateAnswers201(s: Stores, draft: BookingSchemas.BookingDraft, actor: Option<Actor>, requestId: string,
                         key: Option<string>, parseDate: string -> Option<int>)
    requires StoresValid(s)
    requires CreateSpec(s, draft, actor, requestId, key, parseDate).1.Success?
    ensures HttpStatusFor(CreateSpec(s, draft, actor, requestId, key, parseDate).1.value) == CreatedStatus
  {
    var replay := ReplayLookup(s.keys, key, ActorUserId(actor));
    if replay.Some? {
      assert KeyRecordValid(IdempotencyIndex(key.value, ActorUserId(actor), BookingsEndpoint), replay.value, |s.bookings|);
    }
  }

  // ---------------------------------------------------------------- updateBookingStatus

  /** `updateBookingStatus`: 404 for an unknown id, 409 for a transition outside the table,
      otherwise the status is saved, then a `STATUS_CHANGED` event and then a
      `BOOKING_STATUS_UPDATED` audit entry are written; a failing later save leaves the
      earlier writes in place. */
  function UpdateSpec(s: Stores, id: BookingId, status: Status, actor: Actor, requestId: string): (Stores, Result<Booking, Thrown>)
  {
    if id >= |s.bookings| then (s, Failure(Api(BookingNotFound)))
    else
      var b := s.bookings[id];
      if !CanTransition(b.status, status) then (s, Failure(Api(TransitionConflict(b.status, status))))
      else
        var updated := b.(status := status);
        var saved := s.(bookings := s.bookings[id := updated]);
        if requestId == "" then (saved, Failure(Foreign(EventValidationFailed)))
        else
          var logged := saved.(events := saved.events + [StatusEvent(id, actor, b.status, status, requestId)]);
          if !AuditActorComplete(actor) then (logged, Failure(Foreign(AuditValidationFailed)))
          else (logged.(auditLogs := logged.auditLogs + [AuditEntry(id, actor, b.status, status, requestId)]), Success(updated))
  }

  /** An unknown id is 404 `booking_not_found` and writes nothing. */
  lemma UnknownBookingNotFound(s: Stores, id: BookingId, status: Status, actor: Actor, requestId: string)
    requires id >= |s.bookings|
    ensures UpdateSpec(s, id, status, actor, requestId) == (s, Failure(Api(BookingNotFound)))
    ensures BookingNotFound.status == 404 && BookingNotFound.code == "booking_not_found"
  {
  }

  /** A transition outside the table is 409 `invalid_status_transition` and changes no
      booking, event or audit entry; a status update succeeds only along the table. */
  lemma RejectedTransitionChangesNothing(s: Stores, id: BookingId, status: Status, actor: Actor, requestId: string)
    requires id < |s.bookings|
    ensures !CanTransition(s.bookings[id].status, status) ==>
              UpdateSpec(s, id, status, actor, requestId)
              == (s, Failure(Api(TransitionConflict(s.bookings[id].status, status))))
    ensures UpdateSpec(s, id, status, actor, requestId).1.Success? ==> CanTransition(s.bookings[id].status, status)
  {
  }

  /** Every request to mark a booking `COMPLETED` is refused with 409. */
  lemma CompletingIsAlwaysRefused(s: Stores, id: BookingId, actor: Actor, requestId: string)
    requires id < |s.bookings|
    ensures var r := UpdateSpec(s, id, Completed, actor, requestId);
            r.0 == s && r.1.Failure? && r.1.error.Api? && r.1.error.error.status == 409
  {
    TerminalStatuses(s.bookings[id].status);
  }

  /** A successful update sets the target status on that booking alone and appends exactly
      one event and one audit entry, both recording the previous and the new status. */
  lemma SuccessfulUpdateRecordsTransition(s: Stores, id: BookingId, status: Status, actor: Actor, requestId: string)
    requires UpdateSpec(s, id, status, actor, requestId).1.Success?
    ensures var (s', r) := UpdateSpec(s, id, status, actor, requestId);
            && id < |s.bookings| && r.value == s.bookings[id].(status := status)
            && |s'.bookings| == |s.bookings| && s'.bookings[id].status == status
            && (forall j :: 0 <= j < |s.bookings| && j != id ==> s'.bookings[j] == s.bookings[j])
            && s'.events == s.events + [StatusEvent(id, actor, s.bookings[id].status, status, requestId)]
            && s'.events[|s.events|].payload == TransitionPayload(s.bookings[id].status, status)
            && s'.auditLogs == s.auditLogs + [AuditEntry(id, actor, s.bookings[id].status, status, requestId)]
            && s'.auditLogs[|s.auditLogs|].from == s.bookings[id].status && s'.auditLogs[|s.auditLogs|].to == status
            && s'.keys == s.keys
  {
  }

  /** Updates keep the collections valid, whatever their outcome; in particular no booking
      ever reaches a status outside the table. */
  lemma UpdatePreservesValid(s: Stores, id: BookingId, status: Status, actor: Actor, requestId: string)
    requires StoresValid(s)
    ensures StoresValid(UpdateSpec(s, id, status, actor, requestId).0)
  {
    if id < |s.bookings| && CanTransition(s.bookings[id].status, status) {
      TerminalStatuses(s.bookings[id].status);
      var b := s.bookings[id];
      assert BookingSound(b, id);
      BookingsReplace(s.bookings, id, b.(status := status));
      if requestId != "" {
        EventsAppend(s.events, |s.bookings|, StatusEvent(id, actor, b.status, status, requestId));
      }
      if requestId != "" && AuditActorComplete(actor) {
        AuditLogsAppend(s.auditLogs, |s.bookings|, AuditEntry(id, actor, b.status, status, requestId));
      }
    }
  }

  // ---------------------------------------------------------------- the store

  /** The in-memory collections behind the service. Routes and cabs are read only. */
  class BookingStore {
    var bookings: seq<Booking>
    var events: seq<BookingEvent>
    var auditLogs: seq<AuditLog>
    var idempotencyKeys: map<IdempotencyIndex, StoredResponse>
    var routes: seq<RouteOption>
    var cabs: seq<CabOption>

    function State(): Stores
      reads this
    {
      Stores(bookings, events, auditLogs, idempotencyKeys)
    }

    predicate Valid()
      reads this
    {
      StoresValid(State())
    }

    constructor (routes: seq<RouteOption>, cabs: seq<CabOption>)
      ensures Valid() && State() == EmptyStores
      ensures this.routes == routes && this.cabs == cabs
    {
      bookings, events, auditLogs, idempotencyKeys := [], [], [], map[];
      this.routes, this.cabs := routes, cabs;
    }

    method CreateBooking(draft: BookingSchemas.BookingDraft, actor: Option<Actor>, requestId: string,
                         idempotencyKey: Option<string>, parseDate: string -> Option<int>)
      returns (r: Result<CreateOutcome, Thrown>)
      requires Valid()
      modifies this
      ensures Valid()
      ensures State() == CreateSpec(old(State()), draft, actor, requestId, idempotencyKey, parseDate).0
      ensures r == CreateSpec(old(State()), draft, actor, requestId, idempotencyKey, parseDate).1
      ensures routes == old(routes) && cabs == old(cabs)
    {
      ghost var before := State();
      ghost var spec := CreateSpec(before, draft, actor, requestId, idempotencyKey, parseDate);
      CreatePreservesValid(before, draft, actor, requestId, idempotencyKey, parseDate);
      var userId := ActorUserId(actor);
      if idempotencyKey.Some? && idempotencyKey.value != "" {
        var index := IdempotencyIndex(idempotencyKey.value, userId, BookingsEndpoint);
        if index in idempotencyKeys {
          var previous := idempotencyKeys[index];
          r := Success(Replayed(previous.booking, previous.responseStatus));
          assert ReplayLookup(before.keys, idempotencyKey, userId) == Some(previous);
          assert spec == (before, r);
          return;
        }
      }
      assert ReplayLookup(before.keys, idempotencyKey, userId).None?;

      var built := BuildBooking(draft, |bookings|, userId, parseDate);
      if built.Failure? {
        r := Failure(built.error);
        assert spec == (before, r);
        return;
      }
      var booking := built.value;
      bookings := bookings + [booking];

      if requestId == "" {
        r := Failure(Foreign(EventValidationFailed));
        assert spec == (before.(bookings := before.bookings + [booking]), r);
        return;
      }
      events := events + [CreatedEvent(booking, actor, requestId)];
      ghost var withEvent := before.(bookings := before.bookings + [booking]).(events := before.events + [CreatedEvent(booking, actor, requestId)]);

      r := Success(Fresh(booking));
      if idempotencyKey.None? || idempotencyKey.value == "" {
        assert spec == (withEvent, r);
        return;
      }
      var index := IdempotencyIndex(idempotencyKey.value, userId, BookingsEndpoint);
      var response := StoredResponse(CreatedStatus, booking);
      idempotencyKeys := idempotencyKeys[index := response];
      assert spec == (withEvent.(keys := before.keys[index := response]), r);
    }

    method UpdateBookingStatus(id: BookingId, status: Status, actor: Actor, requestId: string)
      returns (r: Result<Booking, Thrown>)
      requires Valid()
      modifies this
      ensures Valid()
      ensures (State(), r) == UpdateSpec(old(State()), id, status, actor, requestId)
      ensures routes == old(routes) && cabs == old(cabs)
    {
      UpdatePreservesValid(State(), id, status, actor, requestId);
      if id >= |bookings| {
        return Failure(Api(BookingNotFound));
      }
      var booking := bookings[id];
      var allowed := AllowedFrom(booking.status);
      if status !in allowed {
        return Failure(Api(TransitionConflict(booking.status, status)));
      }

      var previousStatus := booking.status;
      booking := booking.(status := status);
      bookings := bookings[id := booking];

      if requestId == "" {
        return Failure(Foreign(EventValidationFailed));
      }
      events := events + [StatusEvent(id, actor, previousStatus, status, requestId)];

      if !AuditActorComplete(actor) {
        return Failure(Foreign(AuditValidationFailed));
      }
      auditLogs := auditLogs + [AuditEntry(id, actor, previousStatus, status, requestId)];
      r := Success(booking);
    }
  }

  // ---------------------------------------------------------------- read-only queries

  /** The authenticated caller of the read endpoints. */
  datatype Viewer = Viewer(userId: UserId, role: string)

  const AdminRole := "admin"

  /** An admin sees every booking; anyone else only the bookings they own. */
  predicate Visible(b: Booking, v: Viewer)
  {
    v.role == AdminRole || b.userId == Some(v.userId)
  }

  /** The bookings visible to `v`, newest first. */
  function VisibleNewestFirst(bookings: seq<Booking>, v: Viewer): (r: seq<Booking>)
    ensures |r| <= |bookings|
    ensures forall i :: 0 <= i < |r| ==> Visible(r[i], v) && r[i] in bookings
    decreases |bookings|
  {
    if bookings == [] then []
    else
      var last := bookings[|bookings| - 1];
      var older := VisibleNewestFirst(bookings[..|bookings| - 1], v);
      if Visible(last, v) then [last] + older else older
  }

  const ListLimit := 100

  /** `listBookings`: the caller's visible bookings, newest first, at most 100. */
  function ListBookings(bookings: seq<Booking>, v: Viewer): (r: seq<Booking>)
    ensures |r| == Seqs.Min(|VisibleNewestFirst(bookings, v)|, ListLimit)
    ensures r == VisibleNewestFirst(bookings, v)[..|r|]
    ensures forall i :: 0 <= i < |r| ==> Visible(r[i], v) && r[i] in bookings
  {
    Seqs.Take(VisibleNewestFirst(bookings, v), ListLimit)
  }

  /** Ids are positions (what the store keeps). */
  predicate IdsArePositions(bookings: seq<Booking>)
  {
    forall i :: 0 <= i < |bookings| ==> bookings[i].id == i
  }

  /** Every visible booking is in the newest-first list. */
  lemma {:induction false} VisibleAreListed(bookings: seq<Booking>, v: Viewer, i: nat)
    requires i < |bookings| && Visible(bookings[i], v)
    ensures bookings[i] in VisibleNewestFirst(bookings, v)
    decreases |bookings|
  {
    if i < |bookings| - 1 {
      VisibleAreListed(bookings[..|bookings| - 1], v, i);
    }
  }

  predicate IdsBelow(r: seq<Booking>, n: nat)
  {
    forall i :: 0 <= i < |r| ==> r[i].id < n
  }

  predicate IdsDecreasing(r: seq<Booking>)
  {
    forall a, b :: 0 <= a < b < |r| ==> r[a].id > r[b].id
  }

  /** The newest-first list has strictly decreasing ids, all below the number of bookings. */
  lemma {:induction false} NewestFirstIsOrdered(bookings: seq<Booking>, v: Viewer)
    requires IdsArePositions(bookings)
    ensures IdsBelow(VisibleNewestFirst(bookings, v), |bookings|)
    ensures IdsDecreasing(VisibleNewestFirst(bookings, v))
    decreases |bookings|
  {
    if bookings != [] {
      var n := |bookings| - 1;
      var prefix := bookings[..n];
      NewestFirstIsOrdered(prefix, v);
      var older := VisibleNewestFirst(prefix, v);
      if Visible(bookings[n], v) {
        var r := [bookings[n]] + older;
        assert r == VisibleNewestFirst(bookings, v);
        assert r[0].id == n;
        forall a, b | 0 <= a < b < |r|
          ensures r[a].id > r[b].id
        {
          assert r[b] == older[b - 1];
          if a > 0 { assert r[a] == older[a - 1]; }
        }
      } else {
        assert older == VisibleNewestFirst(bookings, v);
      }
    }
  }

  /** The list never omits a visible booking newer than one it shows, and shows every
      visible booking when there are at most 100 of them. */
  lemma ListShowsTheNewest(bookings: seq<Booking>, v: Viewer, i: nat)
    requires IdsArePositions(bookings)
    requires i < |bookings| && Visible(bookings[i], v)
    ensures var r := ListBookings(bookings, v);
            bookings[i] !in r ==> |r| == ListLimit && forall j :: 0 <= j < |r| ==> r[j].id > i
    ensures |VisibleNewestFirst(bookings, v)| <= ListLimit ==> bookings[i] in ListBookings(bookings, v)
  {
    var all := VisibleNewestFirst(bookings, v);
    var r := ListBookings(bookings, v);
    VisibleAreListed(bookings, v, i);
    NewestFirstIsOrdered(bookings, v);
    var p :| 0 <= p < |all| && all[p] == bookings[i];
    Seqs.PrefixMember(all, |r|, p);
    if bookings[i] !in r {
      assert p >= |r|;
      forall j | 0 <= j < |r|
        ensures r[j].id > i
      {
        assert r[j] == all[j];
      }
    }
  }

  /** An admin lists every booking, newest first (up to the limit). */
  lemma {:induction false} AdminSeesEverything(bookings: seq<Booking>, v: Viewer)
    requires v.role == AdminRole
    ensures VisibleNewestFirst(bookings, v) == Seqs.Reverse(bookings)
    decreases |bookings|
  {
    if bookings != [] {
      AdminSeesEverything(bookings[..|bookings| - 1], v);
      var older := bookings[..|bookings| - 1];
      assert Seqs.Reverse(bookings) == [bookings[|bookings| - 1]] + Seqs.Reverse(older);
    }
  }

  /** `getBookingById`: 404 for an unknown id, 403 unless the caller is an admin or the
      owner, otherwise the booking. */
  function GetBookingById(bookings: seq<Booking>, id: BookingId, v: Viewer): (r: Result<Booking, ApiError>)
    ensures id >= |bookings| ==> r == Failure(BookingNotFound)
    ensures id < |bookings| ==> (r.Success? <==> Visible(bookings[id], v))
    ensures r.Success? ==> r.value == bookings[id]
    ensures id < |bookings| && r.Failure? ==> r.error == BookingForbidden
  {
    if id >= |bookings| then Failure(BookingNotFound)
    else if v.role != AdminRole && bookings[id].userId != Some(v.userId) then Failure(BookingForbidden)
    else Success(bookings[id])
  }

  /** The read rules agree: every listed booking can be fetched by its id. */
  lemma ListedBookingsCanBeFetched(bookings: seq<Booking>, v: Viewer, j: nat)
    requires IdsArePositions(bookings)
    requires j < |ListBookings(bookings, v)|
    ensures GetBookingById(bookings, ListBookings(bookings, v)[j].id, v) == Success(ListBookings(bookings, v)[j])
  {
    var b := ListBookings(bookings, v)[j];
    var k :| 0 <= k < |bookings| && bookings[k] == b;
  }

  // ---------------------------------------------------------------- searchOptions

  /** A cab is offered on `date` when each window bound is absent or holds inclusively;
      with no usable date every cab is offered. */
  predicate AvailableOn(c: CabOption, date: Option<int>)
  {
    date.None?
    || ((c.availableFrom.None? || c.availableFrom.value <= date.value)
        && (c.availableTo.None? || c.availableTo.value >= date.value))
  }

  datatype SearchResult = SearchResult(
    pickup: string, dropoff: string, tripType: TripType,
    routes: seq<RouteOption>, cabs: seq<CabOption>)

  /** The pickup date used for filtering: present and convertible, or none. */
  function SearchDate(draft: BookingSchemas.BookingDraft, parseDate: string -> Option<int>): Option<int>
  {
    if draft.pickupDate != "" then parseDate(draft.pickupDate) else None
  }

  /** `searchOptions`: every route, and the cabs available on the pickup date, newest first. */
  function SearchOptions(routes: seq<RouteOption>, cabs: seq<CabOption>, draft: BookingSchemas.BookingDraft,
                         parseDate: string -> Option<int>): (r: SearchResult)
    ensures r.routes == Seqs.Reverse(routes)
    ensures forall i :: 0 <= i < |r.cabs| ==> r.cabs[i] in cabs && AvailableOn(r.cabs[i], SearchDate(draft, parseDate))
    ensures forall i :: 0 <= i < |cabs| && AvailableOn(cabs[i], SearchDate(draft, parseDate)) ==> cabs[i] in r.cabs
    ensures r.pickup == draft.pickupAddress && r.dropoff == draft.dropoffAddress && r.tripType == draft.tripType
    ensures Seqs.IsSubsequence(r.cabs, Seqs.Reverse(cabs))
  {
    var date := SearchDate(draft, parseDate);
    var offered := Seqs.Filter(Seqs.Reverse(cabs), c => AvailableOn(c, date));
    Seqs.FilterIsSubsequence(Seqs.Reverse(cabs), c => AvailableOn(c, date));
    assert forall i :: 0 <= i < |cabs| ==> cabs[i] == Seqs.Reverse(cabs)[|cabs| - 1 - i];
    SearchResult(draft.pickupAddress, draft.dropoffAddress, draft.tripType, Seqs.Reverse(routes), offered)
  }

  /** Both window bounds are inclusive (`$lte`/`$gte`): a cab whose window opens and closes
      on the pickup date itself is offered. */
  lemma OneDayWindowOffered(routes: seq<RouteOption>, cabs: seq<CabOption>, draft: BookingSchemas.BookingDraft,
                            parseDate: string -> Option<int>, d: int, i: nat)
    requires SearchDate(draft, parseDate) == Some(d)
    requires i < |cabs| && cabs[i].availableFrom == Some(d) && cabs[i].availableTo == Some(d)
    ensures cabs[i] in SearchOptions(routes, cabs, draft, parseDate).cabs
  {
  }

  /** A cab whose window closed the day before the pickup date is not offered. */
  lemma EndedWindowExcluded(routes: seq<RouteOption>, cabs: seq<CabOption>, draft: BookingSchemas.BookingDraft,
                            parseDate: string -> Option<int>, d: int, i: nat)
    requires SearchDate(draft, parseDate) == Some(d)
    requires i < |cabs| && cabs[i].availableTo == Some(d - 1)
    ensures cabs[i] !in SearchOptions(routes, cabs, draft, parseDate).cabs
  {
  }

  /** Without a usable pickup date every cab is offered, newest first. */
  lemma NoDateOffersEveryCab(routes: seq<RouteOption>, cabs: seq<CabOption>, draft: BookingSchemas.BookingDraft,
                             parseDate: string -> Option<int>)
    requires SearchDate(draft, parseDate).None?
    ensures SearchOptions(routes, cabs, draft, parseDate).cabs == Seqs.Reverse(cabs)
  {
    Seqs.FilterAll(Seqs.Reverse(cabs), c => AvailableOn(c, None));
  }
}
