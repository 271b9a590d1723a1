/** `POST /api/submit`: takes the JSON description of a submission, checks the
    two required fields, stamps it with a time and the client address, and
    stores it under a date-partitioned `submissions/` key. */
module SubmitRoute {
  import opened Web
  import opened Text
  import opened Clock
  import opened BlobStore

  /** The incoming request: its parsed JSON body, or None when `req.json()`
      rejects, and the `x-forwarded-for` header when one was sent. */
  datatype Request = Request(body: Option<Json>, forwardedFor: Option<string>)

  /** `!data?.email || !data?.photoUrl` fails exactly when this does not hold. */
  predicate HasRequiredFields(data: Json)
    ensures HasRequiredFields(data) ==> data.JObj? && "email" in data.fields && "photoUrl" in data.fields
    ensures HasRequiredFields(data) ==> data.fields["email"] != JNull && data.fields["email"] != JStr("")
    ensures HasRequiredFields(data) ==> data.fields["photoUrl"] != JNull && data.fields["photoUrl"] != JStr("")
    ensures (&& data.JObj? && "email" in data.fields && "photoUrl" in data.fields
             && data.fields["email"].JStr? && data.fields["email"].s != ""
             && data.fields["photoUrl"].JStr? && data.fields["photoUrl"].s != "")
            ==> HasRequiredFields(data)
  {
    Truthy(Member(data, "email")) && Truthy(Member(data, "photoUrl"))
  }

  /** `req.headers.get('x-forwarded-for') || 'unknown'`. */
  function ClientIp(forwardedFor: Option<string>): (ip: string)
    ensures ip != ""
    ensures forwardedFor.Some? && forwardedFor.value != "" ==> ip == forwardedFor.value
    ensures forwardedFor.None? || forwardedFor.value == "" ==> ip == "unknown"
  {
    if forwardedFor.Some? && forwardedFor.value != "" then forwardedFor.value else "unknown"
  }

  /** `{ ...data, createdAt, ip }`: every field is copied, and the two server
      fields are added, replacing any field of the same name. */
  function Enrich(fields: map<string, Json>, createdAt: string, ip: string): (r: map<string, Json>)
    ensures r.Keys == fields.Keys + {"createdAt", "ip"}
    ensures r["createdAt"] == JStr(createdAt) && r["ip"] == JStr(ip)
    ensures forall k :: k in fields && k != "createdAt" && k != "ip" ==> r[k] == fields[k]
  {
    fields + map["createdAt" := JStr(createdAt), "ip" := JStr(ip)]
  }

  /** `submissions/<date>-<id>.json`, with `date` the first ten characters of an ISO timestamp. */
  function Key(date: string, id: string): (k: string)
    ensures |k| == |date| + |id| + 18
    ensures k[..12] == "submissions/" && k[|k| - 5..] == ".json"
    ensures k[12..12 + |date|] == date && k[12 + |date|] == '-'
  {
    "submissions/" + date + "-" + id + ".json"
  }

  const JsonContentType: string := "application/json"

  /** The stored object: the enriched record as a JSON document. */
  function RecordBlob(data: Json, createdAt: string, ip: string): (b: Blob)
    requires data.JObj?
    ensures b.contentType == "application/json" && b.content.Document? && b.content.json.JObj?
    ensures b.content.json.fields.Keys == data.fields.Keys + {"createdAt", "ip"}
    ensures Member(b.content.json, "createdAt") == Some(JStr(createdAt))
    ensures Member(b.content.json, "ip") == Some(JStr(ip))
    ensures forall k :: k in data.fields && k != "createdAt" && k != "ip" ==>
              b.content.json.fields[k] == data.fields[k]
  {
    Blob(Document(JObj(Enrich(data.fields, createdAt, ip))), JsonContentType)
  }

  /** The success body `{ ok: true, id: pathname }`. */
  function Accepted(pathname: string): (r: Json)
    ensures r.JObj? && r.fields.Keys == {"ok", "id"}
    ensures Member(r, "ok") == Some(JBool(true)) && Member(r, "id") == Some(JStr(pathname))
  {
    JObj(map["ok" := JBool(true), "id" := JStr(pathname)])
  }

  /** The route handler. The clock is read twice, once for `createdAt`
      (`recordClock`) and once for the key (`keyClock`); `id` is what
      `crypto.randomUUID()` returned and `fault` is what the store does. */
  function Post(req: Request, store: Store, recordClock: Instant, keyClock: Instant,
                id: string, fault: Fault): (r: Served)
    requires Valid(recordClock) && Valid(keyClock) && IsUuid(id)
    // a body that is not JSON: 500, not 400
    ensures req.body.None? ==> r.response == ErrorResponse(500, "Submit failed")
    // a falsy email or photoUrl, including a body that is not an object: 400
    ensures req.body.Some? && !HasRequiredFields(req.body.value) ==>
              r.response == ErrorResponse(400, "Missing fields")
    // otherwise one JSON write under the dated key
    ensures req.body.Some? && HasRequiredFields(req.body.value) ==>
              var data := req.body.value;
              var key := Key(IsoPrefix(keyClock), id);
              && data.JObj?
              && if fault.Accepts? then
                   && r.response == Response(200, Accepted(key))
                   && r.store == Store(store.origin, store.objects[
                        key := RecordBlob(data, ToIso(recordClock), ClientIp(req.forwardedFor))])
                 else r.response == ErrorResponse(500, "Submit failed")
    // every response but a success leaves the store as it was
    ensures r.response.status != 200 ==> r.store == store
  {
    match req.body
    case None => Served(ErrorResponse(500, "Submit failed"), store)
    case Some(data) =>
      if !HasRequiredFields(data) then Served(ErrorResponse(400, "Missing fields"), store)
      else
        TruthyMemberIsObject(data, "email");
        var createdAt := ToIso(recordClock);
        var ip := ClientIp(req.forwardedFor);
        var key := Key(IsoPrefix(keyClock), id);
        match Put(store, key, RecordBlob(data, createdAt, ip), fault)
        case Failed => Served(ErrorResponse(500, "Submit failed"), store)
        case Written(after, _, pathname) => Served(Response(200, Accepted(pathname)), after)
  }

  /** The three outcomes by status. */
  lemma PostStatus(req: Request, store: Store, recordClock: Instant, keyClock: Instant,
                   id: string, fault: Fault)
    requires Valid(recordClock) && Valid(keyClock) && IsUuid(id)
    ensures var st := Post(req, store, recordClock, keyClock, id, fault).response.status;
      && (st == 400 <==> req.body.Some? && !HasRequiredFields(req.body.value))
      && (st == 200 <==> req.body.Some? && HasRequiredFields(req.body.value) && fault.Accepts?)
      && (st == 500 <==> req.body.None? || (HasRequiredFields(req.body.value) && fault.Throws?))
  {
  }

  /** The date and the id can be read back from a key. */
  function ParseKey(key: string): (string, string)
    requires |key| >= 59
  {
    (key[12..22], key[23..59])
  }

  /** A key lies in the `submissions/` namespace, ends in `.json`, and gives
      back the date prefix and the id it was built from. */
  lemma KeyRoundTrip(date: string, id: string)
    requires |date| == 10 && IsUuid(id)
    ensures var key := Key(date, id);
      && |key| == 64 && key[..12] == "submissions/" && key[59..] == ".json"
      && ParseKey(key) == (date, id)
  {
    var key := Key(date, id);
    assert key == "submissions/" + date + "-" + id + ".json";
    assert key[12..22] == date;
    assert key[23..59] == id;
  }

  /** Keys with different ids never collide; keys share their first 22
      characters, `submissions/` and the date, exactly when the dates agree. */
  lemma KeysDistinct(date1: string, id1: string, date2: string, id2: string)
    requires |date1| == 10 && |date2| == 10 && IsUuid(id1) && IsUuid(id2)
    ensures Key(date1, id1) == Key(date2, id2) <==> date1 == date2 && id1 == id2
    ensures Key(date1, id1)[..22] == Key(date2, id2)[..22] <==> date1 == date2
  {
    KeyRoundTrip(date1, id1);
    KeyRoundTrip(date2, id2);
  }

  /** The key's date comes from the second clock read: it agrees with the
      date of `createdAt` exactly when both reads fall on the same UTC day
      (for four-digit years). */
  lemma KeyDateMatchesCreatedAt(recordClock: Instant, keyClock: Instant)
    requires Valid(recordClock) && Valid(keyClock)
    requires 0 <= recordClock.year <= 9999 && 0 <= keyClock.year <= 9999
    ensures IsoPrefix(keyClock) == ToIso(recordClock)[..10] <==> SameDay(recordClock, keyClock)
  {
    IsoPrefixIsDate(recordClock);
    IsoPrefixIsDate(keyClock);
    CalendarDateIffSameDay(recordClock, keyClock);
  }

  /** A request served across midnight is filed under the next day while its
      `createdAt` still names the previous one. */
  lemma MidnightSplitsRecordAndKey()
    ensures var recordClock := Instant(2025, 1, 1, 23, 59, 59, 999);
            var keyClock := Instant(2025, 1, 2, 0, 0, 0, 0);
            && Valid(recordClock) && Valid(keyClock)
            && IsoPrefix(keyClock) != ToIso(recordClock)[..10]
  {
    var recordClock := Instant(2025, 1, 1, 23, 59, 59, 999);
    var keyClock := Instant(2025, 1, 2, 0, 0, 0, 0);
    KeyDateMatchesCreatedAt(recordClock, keyClock);
  }
}
