/** Values shared by the two API routes and the browser client: parsed JSON,
    JavaScript truthiness of a property read, HTTP responses, and the browser's
    File and multipart form values. */
module Web {

  datatype Option<+T> = None | Some(value: T)

  newtype byte = b: int | 0 <= b < 256

  /** A parsed JSON value. Numbers are integers in this model. */
  datatype Json =
    | JNull
    | JBool(b: bool)
    | JNum(n: int)
    | JStr(s: string)
    | JArr(items: seq<Json>)
    | JObj(fields: map<string, Json>)

  /** `v?.name` for the member names this model reads (`email`, `photoUrl`,
      `url`): only a JSON object can carry them; on `null`, a primitive or an
      array such a read gives `undefined` (None). */
  function Member(v: Json, name: string): (r: Option<Json>)
    ensures r.Some? <==> v.JObj? && name in v.fields
    ensures r.Some? ==> r.value == v.fields[name]
  {
    match v
    case JObj(m) => if name in m then Some(m[name]) else None
    case _ => None
  }

  /** JavaScript truthiness of a property read; None stands for `undefined`. */
  predicate Truthy(v: Option<Json>)
    ensures Truthy(v) ==> v.Some? && !v.value.JNull?
    ensures v.Some? && (v.value.JArr? || v.value.JObj?) ==> Truthy(v)
    ensures v.Some? && v.value.JStr? ==> (Truthy(v) <==> v.value.s != "")
  {
    match v
    case None => false
    case Some(JNull) => false
    case Some(JBool(b)) => b
    case Some(JNum(n)) => n != 0
    case Some(JStr(s)) => s != ""
    case Some(_) => true
  }

  /** Only a present property can be truthy, so a truthy read proves the
      value read from is an object. */
  lemma TruthyMemberIsObject(v: Json, name: string)
    requires Truthy(Member(v, name))
    ensures v.JObj? && name in v.fields
  {
  }

  /** An HTTP response as `NextResponse.json(body, {status})` builds it. */
  datatype Response = Response(status: int, body: Json)

  /** `Response.ok` of the Fetch API. */
  predicate IsOk(r: Response)
    ensures r.status == 200 ==> IsOk(r)
    ensures r.status == 400 || r.status == 413 || r.status == 500 ==> !IsOk(r)
  {
    200 <= r.status <= 299
  }

  /** The `{ error: message }` body every failing route returns. */
  function ErrorResponse(status: int, message: string): (r: Response)
    ensures r.status == status
    ensures Member(r.body, "error") == Some(JStr(message))
    ensures r.body.JObj? && r.body.fields.Keys == {"error"}
  {
    Response(status, JObj(map["error" := JStr(message)]))
  }

  /** A browser `File`: its name, its MIME type (`""` when unknown) and its bytes. */
  datatype File = File(name: string, mimeType: string, data: seq<byte>)

  /** A value of a multipart form: a file part or a plain text field. */
  datatype FormValue = FilePart(file: File) | TextField(text: string)

  /** Multipart form data in the order the parts were sent. */
  type FormData = seq<(string, FormValue)>

  /** Position of the first part named `name`, or `|form|` when there is none. */
  function FirstPart(form: FormData, name: string): (i: nat)
    ensures i <= |form|
    ensures forall j :: 0 <= j < i ==> form[j].0 != name
    ensures i < |form| ==> form[i].0 == name
  {
    if form == [] then 0
    else if form[0].0 == name then 0
    else 1 + FirstPart(form[1..], name)
  }

  /** `FormData.get(name)`: the first part with that name, or `null` (None). */
  function FormGet(form: FormData, name: string): (r: Option<FormValue>)
    ensures r.None? <==> forall i :: 0 <= i < |form| ==> form[i].0 != name
    ensures r.Some? ==> exists i :: 0 <= i < |form| && form[i] == (name, r.value)
                                    && forall j :: 0 <= j < i ==> form[j].0 != name
  {
    var i := FirstPart(form, name);
    if i < |form| then Some(form[i].1) else None
  }
}
