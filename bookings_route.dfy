/** The `POST` handler of the bookings endpoint: the required-field guard and the assembly of the
    confirmed booking. The random values and the clock reads it makes are inputs. */
module BookingsRoute {

  import opened Wrappers
  import opened Strings

  /** A parsed JSON value; numbers are integers here. */
  datatype Json =
    | JNull
    | JBool(b: bool)
    | JNumber(n: int)
    | JString(s: string)
    | JArray(items: seq<Json>)
    | JObject(fields: map<string, Json>)

  /** JavaScript truthiness of a JSON value. */
  predicate Truthy(j: Json) {
    match j
    case JNull => false
    case JBool(b) => b
    case JNumber(n) => n != 0
    case JString(s) => s != ""
    case _ => true
  }

  /** `body[key]`: a member of an object; no other JSON value has these properties. */
  function Member(body: Json, key: string): Option<Json> {
    if body.JObject? && key in body.fields then Some(body.fields[key]) else None
  }

  predicate Present(body: Json, key: string) {
    Member(body, key).Some? && Truthy(Member(body, key).value)
  }

  const RequiredFields := ["name", "email", "mobile", "date", "eventId"]

  /** The guard of the handler passes. */
  predicate HasRequiredFields(body: Json) {
    Present(body, "name") && Present(body, "email") && Present(body, "mobile") && Present(body, "date")
    && Present(body, "eventId")
  }

  /** What the handler draws from `Math.random`, `Date.now` and `new Date()`: the random id, the
      clock in milliseconds, the five base-36 characters of the ticket and the ISO time text. */
  datatype Generated = Generated(id: string, nowMillis: nat, ticketSuffix: string, isoNow: string)

  datatype Response = Response(status: nat, body: Json)

  const ServerError := "Failed to create booking"
  const MissingFields := "Missing required fields"
  const Confirmed := "Booking confirmed successfully!"

  /** The keys written after the spread of the body. */
  const GeneratedKeys := {"ticketNumber", "status", "bookingDate"}

  function TicketNumber(g: Generated): string {
    "TKT-" + NatToString(g.nowMillis) + "-" + Upper(g.ticketSuffix)
  }

  /** `{ id, ...body, ticketNumber, status, bookingDate }`: a later key replaces an earlier one. */
  function BookingRecord(fields: map<string, Json>, g: Generated): map<string, Json> {
    map["id" := JString(g.id)] + fields
    + map["ticketNumber" := JString(TicketNumber(g)), "status" := JString("confirmed"),
          "bookingDate" := JString(g.isoNow)]
  }

  function ErrorBody(message: string): Json {
    JObject(map["success" := JBool(false), "error" := JString(message)])
  }

  /** `POST(request)`: `parsed` is what `request.json()` yields, `None` when the body is not JSON.
      A `null` body makes the guard's property read throw, which the handler catches. */
  function Post(parsed: Option<Json>, g: Generated): Response {
    if parsed.None? || parsed.value.JNull? then
      Response(500, ErrorBody(ServerError))
    else if !HasRequiredFields(parsed.value) then
      Response(400, ErrorBody(MissingFields))
    else
      Response(200, JObject(map[
        "success" := JBool(true),
        "booking" := JObject(BookingRecord(parsed.value.fields, g)),
        "message" := JString(Confirmed)]))
  }

  /** The guard fails exactly when one of the five fields is absent or falsy. */
  lemma RequiredFieldsMeaning(body: Json)
    ensures HasRequiredFields(body) <==> forall i :: 0 <= i < |RequiredFields| ==> Present(body, RequiredFields[i])
    ensures HasRequiredFields(body) ==> body.JObject?
  {
    if forall i :: 0 <= i < |RequiredFields| ==> Present(body, RequiredFields[i]) {
      assert Present(body, RequiredFields[0]) && Present(body, RequiredFields[4]);
      assert Present(body, RequiredFields[1]) && Present(body, RequiredFields[2]) && Present(body, RequiredFields[3]);
    }
  }

  /** An unreadable or `null` body, and only that, answers 500 with the generic failure. */
  lemma PostServerError(parsed: Option<Json>, g: Generated)
    ensures Post(parsed, g).status == 500 <==> parsed.None? || parsed == Some(JNull)
    ensures Post(parsed, g).status == 500 ==> Post(parsed, g).body == ErrorBody(ServerError)
  {
  }

  /** A readable body lacking any required field, or holding an empty or falsy one, answers 400. */
  lemma PostMissingFields(parsed: Option<Json>, g: Generated)
    ensures Post(parsed, g).status == 400
            <==> parsed.Some? && parsed.value != JNull && !HasRequiredFields(parsed.value)
    ensures Post(parsed, g).status == 400 ==> Post(parsed, g).body == ErrorBody(MissingFields)
  {
  }

  /** One empty or missing required field is enough for the 400 answer. */
  lemma PostRejectsEmptyField(body: Json, i: nat, g: Generated)
    requires body != JNull && i < |RequiredFields|
    requires Member(body, RequiredFields[i]).None? || Member(body, RequiredFields[i]) == Some(JString(""))
    ensures Post(Some(body), g) == Response(400, ErrorBody(MissingFields))
  {
    RequiredFieldsMeaning(body);
  }

  /** Every answer but the confirmation is a failure envelope without a booking. */
  lemma PostRejectedBuildsNoBooking(parsed: Option<Json>, g: Generated)
    ensures var r := Post(parsed, g);
      r.status != 200 ==> r.body.JObject? && "booking" !in r.body.fields
                          && r.body.fields["success"] == JBool(false)
  {
  }

  /** With all five fields present the answer is the confirmation carrying the assembled booking. */
  lemma PostConfirms(body: Json, g: Generated)
    requires HasRequiredFields(body)
    ensures body.JObject?
    ensures var r := Post(Some(body), g);
      && r.status == 200 && r.body.JObject?
      && r.body.fields["success"] == JBool(true)
      && r.body.fields["message"] == JString(Confirmed)
      && r.body.fields["booking"] == JObject(BookingRecord(body.fields, g))
  {
    RequiredFieldsMeaning(body);
  }

  /** The booking holds every body field unchanged except the three generated ones, which always
      take the generated values; the generated id survives only when the body has no `id`. */
  lemma BookingKeepsBody(fields: map<string, Json>, g: Generated)
    ensures var r := BookingRecord(fields, g);
      && r.Keys == fields.Keys + {"id"} + GeneratedKeys
      && (forall k :: k in fields && k !in GeneratedKeys ==> r[k] == fields[k])
      && r["id"] == (if "id" in fields then fields["id"] else JString(g.id))
      && r["ticketNumber"] == JString(TicketNumber(g))
      && r["status"] == JString("confirmed")
      && r["bookingDate"] == JString(g.isoNow)
  {
  }

  /** The ticket number is "TKT-", the clock in canonical decimal (which reads back as the clock),
      a dash, and the random characters upper-cased: the tail has no lower-case letter and
      lower-cases like the random characters, which together fix it letter by letter. */
  lemma TicketNumberShape(g: Generated)
    ensures var t, d := TicketNumber(g), NatToString(g.nowMillis);
      && |t| == 5 + |d| + |g.ticketSuffix|
      && t[..4] == "TKT-"
      && ParseInt(t[4..4 + |d|]) == Some(g.nowMillis as int) && CanonicalDecimal(t[4..4 + |d|])
      && t[4 + |d|] == '-'
      && (forall i :: 5 + |d| <= i < |t| ==> !('a' <= t[i] <= 'z'))
      && Lower(t[5 + |d|..]) == Lower(g.ticketSuffix)
  {
    var t, d, u := TicketNumber(g), NatToString(g.nowMillis), Upper(g.ticketSuffix);
    assert t == "TKT-" + d + "-" + u;
    assert t[4..4 + |d|] == d;
    IntToStringRoundTrip(g.nowMillis);
    IntToStringCanonical(g.nowMillis);
    UpperHasNoLowerCase(g.ticketSuffix);
    assert t[5 + |d|..] == u;
    LowerOfUpper(g.ticketSuffix);
  }
}
