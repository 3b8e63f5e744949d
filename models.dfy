/** The persisted record shapes (the files under server/models): enumerations with their stored names,
    the records the booking and auth services write, and the schema-level validity rules
    (required fields, trimmed strings, the fare lower bound) a record must meet to be saved. */
module Models {
  import opened Wrappers
  import Text

  /** Users and bookings are identified by opaque ids; here they are naturals. */
  type UserId = nat
  type BookingId = nat

  datatype TripType = OneWay | RoundTrip | Airport | Hourly

  /** The stored spelling of each trip type, in declaration order. */
  const TripTypeNames: seq<string> := ["ONE_WAY", "ROUND_TRIP", "AIRPORT", "HOURLY"]

  function TripTypeName(t: TripType): (s: string)
    ensures s in TripTypeNames
  {
    match t
    case OneWay => "ONE_WAY"
    case RoundTrip => "ROUND_TRIP"
    case Airport => "AIRPORT"
    case Hourly => "HOURLY"
  }

  /** The enum check of the schema: a string names a trip type or is rejected. */
  function ParseTripType(s: string): (r: Option<TripType>)
    ensures r.Some? <==> s in TripTypeNames
  {
    if s == "ONE_WAY" then Some(OneWay)
    else if s == "ROUND_TRIP" then Some(RoundTrip)
    else if s == "AIRPORT" then Some(Airport)
    else if s == "HOURLY" then Some(Hourly)
    else None
  }

  /** Parsing and naming are inverse: both directions. */
  lemma TripTypeRoundTrip(t: TripType, s: string)
    ensures ParseTripType(TripTypeName(t)) == Some(t)
    ensures ParseTripType(s) == Some(t) ==> TripTypeName(t) == s
  {
  }

  datatype Status = Pending | Confirmed | Cancelled | Completed

  const StatusNames: seq<string> := ["PENDING", "CONFIRMED", "CANCELLED", "COMPLETED"]

  /** A booking that has not been given a status is `PENDING`. */
  const DefaultStatus := Pending

  function StatusName(s: Status): (n: string)
    ensures n in StatusNames
  {
    match s
    case Pending => "PENDING"
    case Confirmed => "CONFIRMED"
    case Cancelled => "CANCELLED"
    case Completed => "COMPLETED"
  }

  function ParseStatus(n: string): (r: Option<Status>)
    ensures r.Some? <==> n in StatusNames
  {
    if n == "PENDING" then Some(Pending)
    else if n == "CONFIRMED" then Some(Confirmed)
    else if n == "CANCELLED" then Some(Cancelled)
    else if n == "COMPLETED" then Some(Completed)
    else None
  }

  lemma StatusRoundTrip(s: Status, n: string)
    ensures ParseStatus(StatusName(s)) == Some(s)
    ensures ParseStatus(n) == Some(s) ==> StatusName(s) == n
  {
  }

  /** Different statuses have different stored names. */
  lemma StatusNameInjective(a: Status, b: Status)
    ensures StatusName(a) == StatusName(b) ==> a == b
  {
    StatusRoundTrip(a, StatusName(b));
  }

  datatype EventType = Created | StatusChanged

  function EventTypeName(e: EventType): string
  {
    match e
    case Created => "CREATED"
    case StatusChanged => "STATUS_CHANGED"
  }

  /** Contact details; each one not supplied is stored as the empty string. */
  datatype Contact = Contact(name: string, email: string, phone: string)
  /** The chosen ride; each part not supplied is stored as the empty string. */
  datatype Selection = Selection(route: string, cabType: string, carModel: string)

  const EmptyContact := Contact("", "", "")
  const EmptySelection := Selection("", "", "")

  /** A booking record. `userId` is `None` (null) for guest bookings; `pickupDate` is an instant. */
  datatype Booking = Booking(
    id: BookingId,
    userId: Option<UserId>,
    tripType: TripType,
    pickupAddress: string,
    dropoffAddress: string,
    pickupDate: int,
    pickupTime: string,
    contact: Contact,
    selection: Selection,
    fare: int,
    status: Status)

  /** A string saved under `required: true, trim: true`: stored trimmed and not empty
      (`Text.TrimmedIffFixed`: trimming it again changes nothing). */
  predicate StoredTrimmed(s: string)
  {
    s != "" && Text.IsTrimmed(s)
  }

  /** What saving a booking demands: trimmed non-empty addresses, a pickup time and a
      non-negative fare. */
  predicate ValidBooking(b: Booking)
  {
    StoredTrimmed(b.pickupAddress) && StoredTrimmed(b.dropoffAddress) && b.pickupTime != "" && b.fare >= 0
  }

  /** A trimmed string that is not empty saves as it is. */
  lemma TrimmedAddressIsStorable(s: string)
    requires Text.Trim(s) != ""
    ensures StoredTrimmed(Text.Trim(s)) && Text.Trim(Text.Trim(s)) == Text.Trim(s)
  {
    Text.TrimIsTrimmedSlice(s);
    Text.TrimIdempotent(s);
  }

  /** Who caused an event; a missing role is stored as `"guest"`. */
  datatype EventActor = EventActor(userId: Option<UserId>, role: string)

  const GuestRole := "guest"

  /** The role stored for an event whose actor role was `role` (`undefined` takes the default). */
  function EventRole(role: Option<string>): (r: string)
    ensures role.None? ==> r == GuestRole
    ensures role.Some? ==> r == role.value
  {
    role.GetOr(GuestRole)
  }

  datatype EventPayload =
    | CreatedPayload(status: Status, tripType: TripType)
    | TransitionPayload(from: Status, to: Status)

  datatype BookingEvent = BookingEvent(
    bookingId: BookingId,
    eventType: EventType,
    actor: EventActor,
    payload: EventPayload,
    requestId: string)

  /** An event needs a request id (`required` rejects the empty string). */
  predicate ValidEvent(e: BookingEvent)
  {
    e.requestId != ""
  }

  const StatusUpdatedAction := "BOOKING_STATUS_UPDATED"

  datatype AuditActor = AuditActor(userId: UserId, role: string, email: string)

  datatype AuditLog = AuditLog(
    action: string,
    actor: AuditActor,
    targetBooking: BookingId,
    from: Status,
    to: Status,
    requestId: string)

  /** An audit entry needs an action, an actor role and e-mail, and a request id. */
  predicate ValidAuditLog(a: AuditLog)
  {
    a.action != "" && a.actor.role != "" && a.actor.email != "" && a.requestId != ""
  }

  /** The unique triple of an idempotency record; `userId` is `None` (null) for guests, so
      every guest request with the same key and endpoint shares one record. */
  datatype IdempotencyIndex = IdempotencyIndex(key: string, userId: Option<UserId>, endpoint: string)

  /** The response remembered for a key: its status and the booking as it was then. */
  datatype StoredResponse = StoredResponse(responseStatus: int, booking: Booking)

  /** A refresh-token record. `expiresAt` and `revokedAt` are instants in milliseconds;
      `revokedAt` is `None` (null) until the record is revoked. Neither `userId` nor
      `tokenHash` is unique. */
  datatype RefreshToken = RefreshToken(userId: UserId, tokenHash: string, expiresAt: int, revokedAt: Option<int>)

  /** A new record starts unrevoked. */
  function NewRefreshToken(userId: UserId, tokenHash: string, expiresAt: int): (t: RefreshToken)
    ensures t.revokedAt.None? && t.userId == userId && t.tokenHash == tokenHash && t.expiresAt == expiresAt
  {
    RefreshToken(userId, tokenHash, expiresAt, None)
  }

  /** A stored cab; an absent window bound is `None`. The multiplier is left out. */
  datatype CabOption = CabOption(id: nat, cabType: string, carModel: string, availableFrom: Option<int>, availableTo: Option<int>)

  /** A stored route, opaque apart from its id and label (`routeLabel`). */
  datatype RouteOption = RouteOption(id: nat, routeLabel: string)
}
