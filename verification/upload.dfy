/** `POST /api/upload`: takes a multipart form with a `file` part, checks it,
    and stores the file under a fresh `uploads/` key. */
module UploadRoute {
  import opened Web
  import opened Text
  import opened BlobStore

  /** The size bound, 10 MiB; a file of exactly this size is accepted. */
  const MaxBytes: int := 10 * 1024 * 1024

  const DefaultContentType: string := "application/octet-stream"

  /** The incoming request: its multipart body, or None when `req.formData()`
      rejects because the body cannot be read as a form. */
  datatype Request = Request(form: Option<FormData>)

  /** The `file` part when the form has one that is a `File`; a missing part
      or a plain text field gives None (`!(file instanceof File)`). */
  function FilePartOf(form: FormData): (r: Option<File>)
    ensures r.Some? <==> exists i :: 0 <= i < |form| && FirstPart(form, "file") == i && form[i].1.FilePart?
    ensures r.Some? ==> exists i :: 0 <= i < |form| && form[i] == ("file", FilePart(r.value))
                                    && forall j :: 0 <= j < i ==> form[j].0 != "file"
  {
    match FormGet(form, "file")
    case Some(FilePart(f)) => Some(f)
    case _ => None
  }

  /** The storage key: a fixed namespace, the request's random id and the
      sanitised original file name. */
  function Key(id: string, name: string): (k: string)
    ensures |k| == |id| + 9 + |Sanitize(name)|
    ensures k[..8] == "uploads/" && k[8..8 + |id|] == id && k[8 + |id|] == '-'
    ensures k[9 + |id|..] == Sanitize(name)
  {
    "uploads/" + id + "-" + Sanitize(name)
  }

  /** `file.type || 'application/octet-stream'`. */
  function ContentTypeOf(f: File): (r: string)
    ensures r != ""
    ensures f.mimeType != "" ==> r == f.mimeType
    ensures f.mimeType == "" ==> r == DefaultContentType
  {
    if f.mimeType != "" then f.mimeType else DefaultContentType
  }

  /** The success body `{ url, pathname }`. */
  function UploadedBody(url: string, pathname: string): (r: Json)
    ensures r.JObj? && r.fields.Keys == {"url", "pathname"}
    ensures Member(r, "url") == Some(JStr(url)) && Member(r, "pathname") == Some(JStr(pathname))
  {
    JObj(map["url" := JStr(url), "pathname" := JStr(pathname)])
  }

  /** The route handler. `id` is what `crypto.randomUUID()` returned and
      `fault` is what the store does with the write. */
  function Post(req: Request, store: Store, id: string, fault: Fault): (r: Served)
    requires IsUuid(id)
    // an unreadable body or a failing store: 500
    ensures req.form.None? ==> r.response == ErrorResponse(500, "Upload failed")
    // no file part: 400, whatever else the form holds
    ensures req.form.Some? && FilePartOf(req.form.value).None? ==>
              r.response == ErrorResponse(400, "No file")
    // a file over the bound: 413
    ensures req.form.Some? && FilePartOf(req.form.value).Some? ==>
              var f := FilePartOf(req.form.value).value;
              |f.data| > MaxBytes ==> r.response == ErrorResponse(413, "File too large")
    // a file within the bound is written once, under its key, with its type
    ensures req.form.Some? && FilePartOf(req.form.value).Some? ==>
              var f := FilePartOf(req.form.value).value;
              var key := Key(id, f.name);
              |f.data| <= MaxBytes ==>
                if fault.Accepts? then
                  && r.response == Response(200, UploadedBody(PublicUrl(store, key), key))
                  && r.store == Store(store.origin,
                                      store.objects[key := Blob(Binary(f.data), ContentTypeOf(f))])
                else r.response == ErrorResponse(500, "Upload failed")
    // every response but a success leaves the store as it was
    ensures r.response.status != 200 ==> r.store == store
  {
    match req.form
    case None => Served(ErrorResponse(500, "Upload failed"), store)
    case Some(form) =>
      match FilePartOf(form)
      case None => Served(ErrorResponse(400, "No file"), store)
      case Some(f) =>
        if |f.data| > MaxBytes then Served(ErrorResponse(413, "File too large"), store)
        else
          var key := Key(id, f.name);
          match Put(store, key, Blob(Binary(f.data), ContentTypeOf(f)), fault)
          case Failed => Served(ErrorResponse(500, "Upload failed"), store)
          case Written(after, url, pathname) => Served(Response(200, UploadedBody(url, pathname)), after)
  }

  /** The four outcomes by status: the missing-file check comes first, so a
      request without a file is never answered 413. */
  lemma PostStatus(req: Request, store: Store, id: string, fault: Fault)
    requires IsUuid(id)
    ensures var st := Post(req, store, id, fault).response.status;
      && (st == 400 <==> req.form.Some? && FilePartOf(req.form.value).None?)
      && (st == 413 <==> req.form.Some? && FilePartOf(req.form.value).Some?
                         && |FilePartOf(req.form.value).value.data| > MaxBytes)
      && (st == 200 <==> req.form.Some? && FilePartOf(req.form.value).Some?
                         && |FilePartOf(req.form.value).value.data| <= MaxBytes && fault.Accepts?)
      && (st == 500 <==> req.form.None? || (FilePartOf(req.form.value).Some?
                         && |FilePartOf(req.form.value).value.data| <= MaxBytes && fault.Throws?))
  {
  }

  /** The id and the sanitised name can be read back from a key. */
  function ParseKey(key: string): (string, string)
    requires |key| >= 45
  {
    (key[8..44], key[45..])
  }

  /** Every key lies in the `uploads/` namespace, carries no whitespace, and
      gives back the id and the sanitised name it was built from. */
  lemma KeyRoundTrip(id: string, name: string)
    requires IsUuid(id)
    ensures var key := Key(id, name);
      && |key| >= 45 && key[..8] == "uploads/"
      && NoWhitespace(key)
      && ParseKey(key) == (id, Sanitize(name))
  {
    var key := Key(id, name);
    UuidIsPlain(id);
    assert key == "uploads/" + id + "-" + Sanitize(name);
    assert key[8..44] == id;
    assert key[45..] == Sanitize(name);
    forall i | 0 <= i < |key|
      ensures !IsWhitespace(key[i])
    {
      if 8 <= i < 44 {
        assert key[i] == id[i - 8];
      } else if i >= 45 {
        assert key[i] == Sanitize(name)[i - 45];
      }
    }
  }

  /** Keys built from different ids never collide, whatever the file names. */
  lemma KeysDistinct(id1: string, name1: string, id2: string, name2: string)
    requires IsUuid(id1) && IsUuid(id2)
    ensures Key(id1, name1) == Key(id2, name2) <==> id1 == id2 && Sanitize(name1) == Sanitize(name2)
  {
    KeyRoundTrip(id1, name1);
    KeyRoundTrip(id2, name2);
  }
}
