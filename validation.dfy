/** The hand-written booking payload validator (server/utils/validation.js). It runs six
    checks in a fixed order and collects the message of every check that fails. Whether
    `new Date(s)` yields a valid date is the parameter `dateParses`. */
module Validation {
  import Json
  import Text
  import Seqs

  const ValidTripTypes: seq<string> := ["ONE_WAY", "ROUND_TRIP", "AIRPORT", "HOURLY"]

  const TripTypeInvalid := "tripType is invalid."
  const PickupRequired := "pickup.address is required."
  const DropoffRequired := "dropoff.address is required."
  const DateRequired := "schedule.pickupDate is required."
  const TimeRequired := "schedule.pickupTime is required."
  const DateInvalid := "schedule.pickupDate must be a valid date."

  /** The messages in the order the checks run. */
  const Messages: seq<string> := [TripTypeInvalid, PickupRequired, DropoffRequired, DateRequired, TimeRequired, DateInvalid]
  const CheckCount := 6

  datatype ValidationResult = ValidationResult(valid: bool, errors: seq<string>)

  /** `typeof value === 'string' && value.trim().length > 0`. */
  predicate IsNonEmptyString(v: Json.Value)
  {
    v.Str? && |Text.Trim(v.s)| > 0
  }

  /** `payload || {}`. */
  function DataOf(payload: Json.Value): Json.Value
  {
    Json.Or(payload, Json.EmptyObject)
  }

  /** A sub-object is present and its `field` is a non-blank string. */
  predicate HasText(data: Json.Value, obj: string, field: string)
  {
    Json.Truthy(Json.Get(data, obj)) && IsNonEmptyString(Json.Get(Json.Get(data, obj), field))
  }

  /** Check number `i` (in running order) fails on `data`. */
  predicate CheckFails(i: nat, data: Json.Value, dateParses: string -> bool)
    requires i < CheckCount
  {
    match i
    case 0 => var t := Json.Get(data, "tripType"); !(t.Str? && t.s in ValidTripTypes)
    case 1 => !HasText(data, "pickup", "address")
    case 2 => !HasText(data, "dropoff", "address")
    case 3 => !HasText(data, "schedule", "pickupDate")
    case 4 => !HasText(data, "schedule", "pickupTime")
    case _ => HasText(data, "schedule", "pickupDate")
              && !dateParses(Json.Get(Json.Get(data, "schedule"), "pickupDate").s)
  }

  /** The outcome of every check on `data`: `true` where the check fails. */
  function Outcomes(data: Json.Value, dateParses: string -> bool): (fails: seq<bool>)
    ensures |fails| == CheckCount
    ensures forall i :: 0 <= i < CheckCount ==> fails[i] == CheckFails(i, data, dateParses)
  {
    seq(CheckCount, i requires 0 <= i < CheckCount => CheckFails(i, data, dateParses))
  }

  /** The messages of the failing checks among the first `k`, in check order. */
  function FailedUpTo(fails: seq<bool>, k: nat): seq<string>
    requires k <= |fails| == CheckCount
  {
    if k == 0 then []
    else FailedUpTo(fails, k - 1) + (if fails[k - 1] then [Messages[k - 1]] else [])
  }

  /** The error list the validator must produce: one message per failing check, in check order. */
  function ExpectedErrors(payload: Json.Value, dateParses: string -> bool): seq<string>
  {
    FailedUpTo(Outcomes(DataOf(payload), dateParses), CheckCount)
  }

  /** `validateBookingPayload(payload)`: pushes the message of each failing check in turn. */
  method ValidateBookingPayload(payload: Json.Value, dateParses: string -> bool) returns (r: ValidationResult)
    ensures r.errors == ExpectedErrors(payload, dateParses)
    ensures r.valid <==> r.errors == []
  {
    var errors: seq<string> := [];
    var data := DataOf(payload);
    ghost var fails := Outcomes(data, dateParses);

    var tripType := Json.Get(data, "tripType");
    if !(tripType.Str? && tripType.s in ValidTripTypes) {
      errors := errors + [TripTypeInvalid];
    }
    assert errors == FailedUpTo(fails, 1);

    var pickup := Json.Get(data, "pickup");
    if !Json.Truthy(pickup) || !IsNonEmptyString(Json.Get(pickup, "address")) {
      errors := errors + [PickupRequired];
    }
    assert errors == FailedUpTo(fails, 2);

    var dropoff := Json.Get(data, "dropoff");
    if !Json.Truthy(dropoff) || !IsNonEmptyString(Json.Get(dropoff, "address")) {
      errors := errors + [DropoffRequired];
    }
    assert errors == FailedUpTo(fails, 3);

    var schedule := Json.Get(data, "schedule");
    if !Json.Truthy(schedule) || !IsNonEmptyString(Json.Get(schedule, "pickupDate")) {
      errors := errors + [DateRequired];
    }
    assert errors == FailedUpTo(fails, 4);

    if !Json.Truthy(schedule) || !IsNonEmptyString(Json.Get(schedule, "pickupTime")) {
      errors := errors + [TimeRequired];
    }
    assert errors == FailedUpTo(fails, 5);

    if Json.Truthy(schedule) && IsNonEmptyString(Json.Get(schedule, "pickupDate")) {
      if !dateParses(Json.Get(schedule, "pickupDate").s) {
        errors := errors + [DateInvalid];
      }
    }
    assert errors == FailedUpTo(fails, 6);

    r := ValidationResult(|errors| == 0, errors);
  }

  lemma {:induction false} FailedUpToMembers(fails: seq<bool>, k: nat, j: nat)
    requires k <= |fails| == CheckCount && j < CheckCount
    ensures Messages[j] in FailedUpTo(fails, k) <==> j < k && fails[j]
  {
    if k > 0 {
      FailedUpToMembers(fails, k - 1, j);
      MessagesDistinct();
    }
  }

  /** No two checks share a message. */
  lemma MessagesDistinct()
    ensures forall a, b :: 0 <= a < b < CheckCount ==> Messages[a] != Messages[b]
  {
    assert Messages[0][0] == 't' && Messages[1][0] == 'p' && Messages[2][0] == 'd';
    assert Messages[3][0] == 's' && Messages[4][0] == 's' && Messages[5][0] == 's';
    assert Messages[3][15] == 'D' && Messages[4][15] == 'T' && Messages[5][15] == 'D';
    assert Messages[3][20] == 'i' && Messages[5][20] == 'm';
  }

  /** A message is reported exactly when its check fails. */
  lemma ErrorReportedIffCheckFails(payload: Json.Value, dateParses: string -> bool, j: nat)
    requires j < CheckCount
    ensures Messages[j] in ExpectedErrors(payload, dateParses) <==> CheckFails(j, DataOf(payload), dateParses)
  {
    FailedUpToMembers(Outcomes(DataOf(payload), dateParses), CheckCount, j);
  }

  lemma {:induction false} FailedUpToInOrder(fails: seq<bool>, k: nat)
    requires k <= |fails| == CheckCount
    ensures Seqs.IsSubsequence(FailedUpTo(fails, k), Messages[..k])
    ensures |FailedUpTo(fails, k)| <= k
  {
    if k > 0 {
      FailedUpToInOrder(fails, k - 1);
      assert Messages[..k] == Messages[..k - 1] + [Messages[k - 1]];
      if fails[k - 1] {
        Seqs.SubsequenceAppend(FailedUpTo(fails, k - 1), Messages[..k - 1], Messages[k - 1]);
      } else {
        assert FailedUpTo(fails, k) == FailedUpTo(fails, k - 1);
        Seqs.SubsequenceExtend(FailedUpTo(fails, k - 1), Messages[..k - 1], Messages[k - 1]);
      }
    }
  }

  /** Errors come in the fixed check order, and there are at most six of them. */
  lemma ErrorsInCheckOrder(payload: Json.Value, dateParses: string -> bool)
    ensures Seqs.IsSubsequence(ExpectedErrors(payload, dateParses), Messages)
    ensures |ExpectedErrors(payload, dateParses)| <= CheckCount
  {
    FailedUpToInOrder(Outcomes(DataOf(payload), dateParses), CheckCount);
    assert Messages[..CheckCount] == Messages;
  }

  /** A blank date is "required", a non-blank unparsable one "must be a valid date":
      never both. */
  lemma DateErrorsExclusive(payload: Json.Value, dateParses: string -> bool)
    ensures !(DateRequired in ExpectedErrors(payload, dateParses) && DateInvalid in ExpectedErrors(payload, dateParses))
  {
    ErrorReportedIffCheckFails(payload, dateParses, 3);
    ErrorReportedIffCheckFails(payload, dateParses, 5);
  }

  lemma {:induction false} NothingFailedUpTo(fails: seq<bool>, k: nat)
    requires k <= |fails| == CheckCount
    requires forall j :: 0 <= j < k ==> !fails[j]
    ensures FailedUpTo(fails, k) == []
  {
    if k > 0 {
      NothingFailedUpTo(fails, k - 1);
    }
  }

  /** The payload is accepted exactly when every one of the six checks passes. */
  lemma AcceptedIffEveryCheckPasses(payload: Json.Value, dateParses: string -> bool)
    ensures ExpectedErrors(payload, dateParses) == []
            <==> forall j :: 0 <= j < CheckCount ==> !CheckFails(j, DataOf(payload), dateParses)
  {
    var fails := Outcomes(DataOf(payload), dateParses);
    if forall j :: 0 <= j < CheckCount ==> !CheckFails(j, DataOf(payload), dateParses) {
      NothingFailedUpTo(fails, CheckCount);
    } else {
      var j :| 0 <= j < CheckCount && CheckFails(j, DataOf(payload), dateParses);
      FailedUpToMembers(fails, CheckCount, j);
    }
  }

  /** A missing, null or empty payload fails every check but the date-format one. */
  lemma EmptyPayloadFiveErrors(payload: Json.Value, dateParses: string -> bool)
    requires payload == Json.Undefined || payload == Json.Null || payload == Json.EmptyObject
    ensures ExpectedErrors(payload, dateParses)
            == [TripTypeInvalid, PickupRequired, DropoffRequired, DateRequired, TimeRequired]
  {
    var data := DataOf(payload);
    assert data == Json.EmptyObject;
    var fails := Outcomes(data, dateParses);
    assert fails[0] && fails[1] && fails[2] && fails[3] && fails[4] && !fails[5];
    assert FailedUpTo(fails, 1) == [TripTypeInvalid];
    assert FailedUpTo(fails, 2) == [TripTypeInvalid, PickupRequired];
    assert FailedUpTo(fails, 3) == [TripTypeInvalid, PickupRequired, DropoffRequired];
    assert FailedUpTo(fails, 4) == [TripTypeInvalid, PickupRequired, DropoffRequired, DateRequired];
    assert FailedUpTo(fails, 5) == FailedUpTo(fails, 6);
  }

  function Address(s: string): Json.Value
  {
    Json.Obj(map["address" := Json.Str(s)])
  }

  /** A payload with every field the booking form sends, each a string. */
  function Payload(tripType: string, pickup: string, dropoff: string, date: string, time: string): Json.Value
  {
    Json.Obj(map[
      "tripType" := Json.Str(tripType),
      "pickup" := Address(pickup),
      "dropoff" := Address(dropoff),
      "schedule" := Json.Obj(map["pickupDate" := Json.Str(date), "pickupTime" := Json.Str(time)])])
  }

  /** The valid payload of server/test/validation.test.js. */
  const ValidSample: Json.Value := Payload("ONE_WAY", "Airport Road", "City Center", "2026-03-01", "10:30")

  /** The malformed payload of the same test. */
  const MalformedSample: Json.Value := Json.Obj(map[
    "tripType" := Json.Str("UNKNOWN"),
    "pickup" := Address(""),
    "schedule" := Json.Obj(map["pickupDate" := Json.Str("bad-date"), "pickupTime" := Json.Str("")])])

  /** A field holding a string with a non-whitespace character passes the presence check. */
  lemma HasTextWhen(data: Json.Value, obj: string, field: string, s: string, i: nat)
    requires Json.Get(Json.Get(data, obj), field) == Json.Str(s)
    requires i < |s| && !Text.IsJsWhitespace(s[i])
    ensures HasText(data, obj, field)
  {
    Text.NonWhitespaceSurvivesTrim(s, i);
  }

  /** A payload with a known trip type and the four fields each holding visible text is
      accepted exactly when its date parses. */
  lemma CompletePayloadAccepted(dateParses: string -> bool,
                                tripType: string, pickup: string, dropoff: string, date: string, time: string)
    requires tripType in ValidTripTypes
    requires |pickup| > 0 && !Text.IsJsWhitespace(pickup[0])
    requires |dropoff| > 0 && !Text.IsJsWhitespace(dropoff[0])
    requires |date| > 0 && !Text.IsJsWhitespace(date[0])
    requires |time| > 0 && !Text.IsJsWhitespace(time[0])
    ensures var payload := Payload(tripType, pickup, dropoff, date, time);
            ExpectedErrors(payload, dateParses) == [] <==> dateParses(date)
  {
    var payload := Payload(tripType, pickup, dropoff, date, time);
    var data := DataOf(payload);
    assert data == payload;
    HasTextWhen(data, "pickup", "address", pickup, 0);
    HasTextWhen(data, "dropoff", "address", dropoff, 0);
    HasTextWhen(data, "schedule", "pickupDate", date, 0);
    HasTextWhen(data, "schedule", "pickupTime", time, 0);
    AcceptedIffEveryCheckPasses(payload, dateParses);
  }

  lemma ValidSampleAccepted(dateParses: string -> bool)
    requires dateParses("2026-03-01")
    ensures ExpectedErrors(ValidSample, dateParses) == []
  {
    assert "ONE_WAY" == ValidTripTypes[0];
    CompletePayloadAccepted(dateParses, "ONE_WAY", "Airport Road", "City Center", "2026-03-01", "10:30");
  }

  /** Four failing checks give at least four errors. */
  lemma FourFailuresReported(fails: seq<bool>)
    requires |fails| == CheckCount
    requires fails[0] && fails[1] && fails[2] && fails[4]
    ensures |FailedUpTo(fails, CheckCount)| >= 4
  {
    assert |FailedUpTo(fails, 1)| == 1;
    assert |FailedUpTo(fails, 2)| == 2;
    assert |FailedUpTo(fails, 3)| == 3;
    assert |FailedUpTo(fails, 4)| >= 3;
    assert |FailedUpTo(fails, 5)| >= 4;
  }

  /** An unknown trip type, a blank pickup address, a missing dropoff and a blank pickup
      time give at least four errors, whatever the date. */
  lemma BlankAndMissingFieldsRejected(payload: Json.Value, dateParses: string -> bool, tripType: string)
    requires Json.Get(DataOf(payload), "tripType") == Json.Str(tripType) && tripType !in ValidTripTypes
    requires Json.Get(Json.Get(DataOf(payload), "pickup"), "address") == Json.Str("")
    requires Json.Get(DataOf(payload), "dropoff") == Json.Undefined
    requires Json.Get(Json.Get(DataOf(payload), "schedule"), "pickupTime") == Json.Str("")
    ensures |ExpectedErrors(payload, dateParses)| >= 4
  {
    assert Text.Trim("") == [];
    FourFailuresReported(Outcomes(DataOf(payload), dateParses));
  }

  /** The malformed sample is rejected with at least four errors. */
  lemma MalformedSampleRejected(dateParses: string -> bool)
    ensures |ExpectedErrors(MalformedSample, dateParses)| >= 4
  {
    assert "UNKNOWN" !in ValidTripTypes;
    BlankAndMissingFieldsRejected(MalformedSample, dateParses, "UNKNOWN");
  }
}
