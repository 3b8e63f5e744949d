/** The request-body schemas of the booking endpoints (server/src/modules/booking/schemas.js)
    as predicates over JSON values, and the typed draft a body that passes the create schema
    is parsed into. Object schemas ignore keys they do not name; an optional field accepts
    an absent (`undefined`) value but not `null`. Whether a string is an e-mail address is
    the parameter `isEmail`. */
module BookingSchemas {
  import opened Wrappers
  import Json
  import Text
  import Models

  /** `z.string().min(n)`. */
  predicate StringMin(v: Json.Value, n: nat)
  {
    v.Str? && |v.s| >= n
  }

  /** `z.string().email()`. */
  predicate EmailString(v: Json.Value, isEmail: string -> bool)
  {
    v.Str? && isEmail(v.s)
  }

  /** The phone pattern `^[+]?[0-9]{7,13}$`: an optional plus sign, then 7 to 13 digits. */
  predicate IsPhone(s: string)
  {
    AllDigits(PhoneDigits(s), 7, 13)
  }

  /** The part of a phone string after an optional leading plus sign. */
  function PhoneDigits(s: string): (d: string)
    ensures |s| > 0 && s[0] == '+' ==> d == s[1..]
    ensures !(|s| > 0 && s[0] == '+') ==> d == s
  {
    if |s| > 0 && s[0] == '+' then s[1..] else s
  }

  /** Between `lo` and `hi` characters, every one a digit. */
  predicate AllDigits(d: string, lo: nat, hi: nat)
  {
    lo <= |d| <= hi && forall i :: 0 <= i < |d| ==> Text.IsDigit(d[i])
  }

  predicate PhoneString(v: Json.Value)
  {
    v.Str? && IsPhone(v.s)
  }

  /** `z.enum(tripTypes)`. */
  predicate TripTypeValue(v: Json.Value)
  {
    v.Str? && v.s in Models.TripTypeNames
  }

  /** `z.object({ address: z.string().min(3) })`. */
  predicate AddressObject(v: Json.Value)
  {
    v.Obj? && StringMin(Json.Get(v, "address"), 3)
  }

  predicate ScheduleObject(v: Json.Value)
  {
    v.Obj? && StringMin(Json.Get(v, "pickupDate"), 8) && StringMin(Json.Get(v, "pickupTime"), 4)
  }

  /** The optional-field form: the field may be absent; if present it must satisfy the rule. */
  predicate OptionalMin(v: Json.Value, n: nat)
  {
    v.Undefined? || StringMin(v, n)
  }

  /** The contact object of the create schema: every field optional. */
  predicate OptionalContactFields(v: Json.Value, isEmail: string -> bool)
  {
    v.Obj?
    && OptionalMin(Json.Get(v, "name"), 2)
    && (Json.Get(v, "email").Undefined? || EmailString(Json.Get(v, "email"), isEmail))
    && (Json.Get(v, "phone").Undefined? || PhoneString(Json.Get(v, "phone")))
  }

  /** The contact object of the public schema: every field mandatory. */
  predicate RequiredContactFields(v: Json.Value, isEmail: string -> bool)
  {
    v.Obj?
    && StringMin(Json.Get(v, "name"), 2)
    && EmailString(Json.Get(v, "email"), isEmail)
    && PhoneString(Json.Get(v, "phone"))
  }

  predicate SelectionFields(v: Json.Value)
  {
    v.Obj?
    && OptionalMin(Json.Get(v, "route"), 2)
    && OptionalMin(Json.Get(v, "cabType"), 2)
    && OptionalMin(Json.Get(v, "carModel"), 2)
    && (Json.Get(v, "multiplier").Undefined? || Json.Get(v, "multiplier").Num?)
    && OptionalMin(Json.Get(v, "fromHub"), 2)
    && OptionalMin(Json.Get(v, "toHub"), 2)
  }

  /** The fields both booking schemas share. */
  predicate CommonFields(body: Json.Value)
  {
    body.Obj?
    && TripTypeValue(Json.Get(body, "tripType"))
    && AddressObject(Json.Get(body, "pickup"))
    && AddressObject(Json.Get(body, "dropoff"))
    && ScheduleObject(Json.Get(body, "schedule"))
    && (Json.Get(body, "selection").Undefined? || SelectionFields(Json.Get(body, "selection")))
  }

  /** `bookingCreateSchema`. */
  predicate BookingCreateSchema(body: Json.Value, isEmail: string -> bool)
  {
    CommonFields(body)
    && (Json.Get(body, "contact").Undefined? || OptionalContactFields(Json.Get(body, "contact"), isEmail))
  }

  /** `publicBookingSchema`: the create schema with a mandatory, complete contact. */
  predicate PublicBookingSchema(body: Json.Value, isEmail: string -> bool)
  {
    CommonFields(body) && RequiredContactFields(Json.Get(body, "contact"), isEmail)
  }

  /** The public schema is the create schema plus a contact whose name, e-mail and phone
      are all present. */
  lemma PublicIsCreateWithFullContact(body: Json.Value, isEmail: string -> bool)
    ensures PublicBookingSchema(body, isEmail)
            <==> BookingCreateSchema(body, isEmail)
                 && var c := Json.Get(body, "contact");
                    !Json.Get(c, "name").Undefined? && !Json.Get(c, "email").Undefined?
                    && !Json.Get(c, "phone").Undefined?
  {
  }

  /** `bookingStatusSchema`: the status must name one of the four statuses. */
  predicate BookingStatusSchema(body: Json.Value)
  {
    body.Obj? && Json.Get(body, "status").Str? && Json.Get(body, "status").s in Models.StatusNames
  }

  /** The status schema accepts exactly the bodies whose status parses, `COMPLETED` included. */
  lemma StatusSchemaAcceptsExactlyTheStatuses(body: Json.Value)
    ensures BookingStatusSchema(body)
            <==> body.Obj? && Json.Get(body, "status").Str? && Models.ParseStatus(Json.Get(body, "status").s).Some?
    ensures BookingStatusSchema(Json.Obj(map["status" := Json.Str("COMPLETED")]))
  {
  }

  /** The contact part of a parsed body; `None` for a field left out. */
  datatype ContactInput = ContactInput(name: Option<string>, email: Option<string>, phone: Option<string>)
  /** The selection part of a parsed body. */
  datatype SelectionInput = SelectionInput(
    route: Option<string>, cabType: Option<string>, carModel: Option<string>,
    multiplier: Option<int>, fromHub: Option<string>, toHub: Option<string>)

  /** A body that passed the create schema, with the keys the schema does not name dropped. */
  datatype BookingDraft = BookingDraft(
    tripType: Models.TripType,
    pickupAddress: string,
    dropoffAddress: string,
    pickupDate: string,
    pickupTime: string,
    contact: Option<ContactInput>,
    selection: Option<SelectionInput>)

  function OptString(v: Json.Value): Option<string>
  {
    if v.Str? then Some(v.s) else None
  }

  function OptNum(v: Json.Value): Option<int>
  {
    if v.Num? then Some(v.n) else None
  }

  function ContactOf(v: Json.Value): ContactInput
  {
    ContactInput(OptString(Json.Get(v, "name")), OptString(Json.Get(v, "email")), OptString(Json.Get(v, "phone")))
  }

  function SelectionOf(v: Json.Value): SelectionInput
  {
    SelectionInput(
      OptString(Json.Get(v, "route")), OptString(Json.Get(v, "cabType")), OptString(Json.Get(v, "carModel")),
      OptNum(Json.Get(v, "multiplier")), OptString(Json.Get(v, "fromHub")), OptString(Json.Get(v, "toHub")))
  }

  /** Parsing with the create schema: the draft exists exactly when the body is accepted. */
  function ParseBookingCreate(body: Json.Value, isEmail: string -> bool): (r: Option<BookingDraft>)
    ensures r.Some? <==> BookingCreateSchema(body, isEmail)
    ensures r.Some? ==> var d := r.value;
      && Models.TripTypeName(d.tripType) == Json.Get(body, "tripType").s
      && |d.pickupAddress| >= 3 && |d.dropoffAddress| >= 3
      && |d.pickupDate| >= 8 && |d.pickupTime| >= 4
  {
    if !BookingCreateSchema(body, isEmail) then None
    else
      var contact := Json.Get(body, "contact");
      var selection := Json.Get(body, "selection");
      var t := Models.ParseTripType(Json.Get(body, "tripType").s);
      Models.TripTypeRoundTrip(t.value, Json.Get(body, "tripType").s);
      Some(BookingDraft(
        t.value,
        Json.Get(Json.Get(body, "pickup"), "address").s,
        Json.Get(Json.Get(body, "dropoff"), "address").s,
        Json.Get(Json.Get(body, "schedule"), "pickupDate").s,
        Json.Get(Json.Get(body, "schedule"), "pickupTime").s,
        if contact.Undefined? then None else Some(ContactOf(contact)),
        if selection.Undefined? then None else Some(SelectionOf(selection))))
  }

  function OptStr(o: Option<string>): Json.Value
  {
    if o.Some? then Json.Str(o.value) else Json.Undefined
  }

  function ContactJson(c: ContactInput): Json.Value
  {
    Json.Obj(map["name" := OptStr(c.name), "email" := OptStr(c.email), "phone" := OptStr(c.phone)])
  }

  function SelectionJson(s: SelectionInput): Json.Value
  {
    Json.Obj(map[
      "route" := OptStr(s.route), "cabType" := OptStr(s.cabType), "carModel" := OptStr(s.carModel),
      "multiplier" := (if s.multiplier.Some? then Json.Num(s.multiplier.value) else Json.Undefined),
      "fromHub" := OptStr(s.fromHub), "toHub" := OptStr(s.toHub)])
  }

  /** The body a client sends for a draft. */
  function DraftJson(d: BookingDraft): Json.Value
  {
    Json.Obj(map[
      "tripType" := Json.Str(Models.TripTypeName(d.tripType)),
      "pickup" := Json.Obj(map["address" := Json.Str(d.pickupAddress)]),
      "dropoff" := Json.Obj(map["address" := Json.Str(d.dropoffAddress)]),
      "schedule" := Json.Obj(map["pickupDate" := Json.Str(d.pickupDate), "pickupTime" := Json.Str(d.pickupTime)]),
      "contact" := (if d.contact.Some? then ContactJson(d.contact.value) else Json.Undefined),
      "selection" := (if d.selection.Some? then SelectionJson(d.selection.value) else Json.Undefined)])
  }

  predicate OptMin(o: Option<string>, n: nat)
  {
    o.None? || |o.value| >= n
  }

  predicate ContactConforms(c: ContactInput, isEmail: string -> bool)
  {
    OptMin(c.name, 2) && (c.email.None? || isEmail(c.email.value)) && (c.phone.None? || IsPhone(c.phone.value))
  }

  predicate SelectionConforms(s: SelectionInput)
  {
    OptMin(s.route, 2) && OptMin(s.cabType, 2) && OptMin(s.carModel, 2) && OptMin(s.fromHub, 2) && OptMin(s.toHub, 2)
  }

  /** The constraints the create schema puts on a draft's values. */
  predicate DraftConforms(d: BookingDraft, isEmail: string -> bool)
  {
    && |d.pickupAddress| >= 3 && |d.dropoffAddress| >= 3
    && |d.pickupDate| >= 8 && |d.pickupTime| >= 4
    && (d.contact.Some? ==> ContactConforms(d.contact.value, isEmail))
    && (d.selection.Some? ==> SelectionConforms(d.selection.value))
  }

  lemma ContactRoundTrip(c: ContactInput, isEmail: string -> bool)
    ensures OptionalContactFields(ContactJson(c), isEmail) <==> ContactConforms(c, isEmail)
    ensures ContactOf(ContactJson(c)) == c
  {
    var v := ContactJson(c);
    assert Json.Get(v, "name") == OptStr(c.name);
    assert Json.Get(v, "email") == OptStr(c.email);
    assert Json.Get(v, "phone") == OptStr(c.phone);
  }

  lemma SelectionRoundTrip(s: SelectionInput)
    ensures SelectionFields(SelectionJson(s)) <==> SelectionConforms(s)
    ensures SelectionOf(SelectionJson(s)) == s
  {
    var v := SelectionJson(s);
    assert Json.Get(v, "route") == OptStr(s.route);
    assert Json.Get(v, "cabType") == OptStr(s.cabType);
    assert Json.Get(v, "carModel") == OptStr(s.carModel);
    assert Json.Get(v, "fromHub") == OptStr(s.fromHub);
    assert Json.Get(v, "toHub") == OptStr(s.toHub);
  }

  /** The top-level properties of a draft's body. */
  lemma DraftJsonFields(d: BookingDraft)
    ensures DraftJson(d).Obj?
    ensures Json.Get(DraftJson(d), "tripType") == Json.Str(Models.TripTypeName(d.tripType))
    ensures Json.Get(DraftJson(d), "pickup") == Json.Obj(map["address" := Json.Str(d.pickupAddress)])
    ensures Json.Get(DraftJson(d), "dropoff") == Json.Obj(map["address" := Json.Str(d.dropoffAddress)])
    ensures Json.Get(DraftJson(d), "schedule")
            == Json.Obj(map["pickupDate" := Json.Str(d.pickupDate), "pickupTime" := Json.Str(d.pickupTime)])
    ensures Json.Get(DraftJson(d), "contact") == if d.contact.Some? then ContactJson(d.contact.value) else Json.Undefined
    ensures Json.Get(DraftJson(d), "selection") == if d.selection.Some? then SelectionJson(d.selection.value) else Json.Undefined
  {
  }

  /** The nested address and schedule properties of a draft's body. */
  lemma DraftJsonNested(d: BookingDraft)
    ensures Json.Get(DraftJson(d), "pickup").Obj? && Json.Get(DraftJson(d), "dropoff").Obj?
    ensures Json.Get(DraftJson(d), "schedule").Obj?
    ensures Json.Get(Json.Get(DraftJson(d), "pickup"), "address") == Json.Str(d.pickupAddress)
    ensures Json.Get(Json.Get(DraftJson(d), "dropoff"), "address") == Json.Str(d.dropoffAddress)
    ensures Json.Get(Json.Get(DraftJson(d), "schedule"), "pickupDate") == Json.Str(d.pickupDate)
    ensures Json.Get(Json.Get(DraftJson(d), "schedule"), "pickupTime") == Json.Str(d.pickupTime)
  {
    DraftJsonFields(d);
  }

  /** Sending a draft and parsing it gives it back exactly when it meets the schema's
      constraints; otherwise the body is rejected. */
  lemma DraftRoundTrip(d: BookingDraft, isEmail: string -> bool)
    ensures DraftConforms(d, isEmail) ==> ParseBookingCreate(DraftJson(d), isEmail) == Some(d)
    ensures !DraftConforms(d, isEmail) ==> ParseBookingCreate(DraftJson(d), isEmail).None?
  {
    DraftJsonFields(d);
    DraftJsonNested(d);
    Models.TripTypeRoundTrip(d.tripType, Models.TripTypeName(d.tripType));
    if d.contact.Some? {
      ContactRoundTrip(d.contact.value, isEmail);
    }
    if d.selection.Some? {
      SelectionRoundTrip(d.selection.value);
    }
  }

  /** The plus sign is optional: a digit string is a phone number with or without it. */
  lemma PlusSignOptional(d: string)
    requires |d| > 0 && Text.IsDigit(d[0])
    ensures IsPhone("+" + d) <==> IsPhone(d)
  {
    assert ("+" + d)[0] == '+' && ("+" + d)[1..] == d;
    assert PhoneDigits("+" + d) == d;
    assert d[0] != '+';
    assert PhoneDigits(d) == d;
  }

  /** Too few digits, a letter, or a lone plus sign is not a phone number. */
  lemma PhoneRejections()
    ensures !IsPhone("+12345") && !IsPhone("98765abcd") && !IsPhone("+")
  {
    assert "+12345"[1..] == "12345";
    assert "+"[1..] == "";
    var s := "98765abcd";
    assert s[0] != '+' && !Text.IsDigit(s[5]);
    assert PhoneDigits(s) == s;
  }
}
