/** One submission from end to end: the dialog's handler, the two routes it
    calls and the store behind them, with everything the environment decides
    (the network, the store's failures, clocks, ids and random draws) given
    up front as a `World`. */
module Intake {
  import opened Web
  import opened Text
  import opened Clock
  import opened BlobStore
  import opened QueueEstimate
  import opened UploadDialog
  import UploadRoute
  import SubmitRoute

  /** What the network does with one request: deliver it and its answer, lose
      it before it reaches the server, or lose the answer after the server
      acted on it. The last two both make `fetch` reject. */
  datatype Transport = Delivered | LostOnTheWay | LostOnTheWayBack

  /** The environment's choices for one submission. */
  datatype World = World(
    uploadTransport: Transport, uploadId: string, uploadFault: Fault,
    userAgent: string,
    submitTransport: Transport, recordClock: Instant, keyClock: Instant,
    submitId: string, forwardedFor: Option<string>, submitFault: Fault,
    etaDraw: real)

  /** The ranges of the environment's values: ids shaped like
      `crypto.randomUUID()`, real calendar instants, a `Math.random()` draw. */
  predicate Possible(w: World) {
    && IsUuid(w.uploadId) && IsUuid(w.submitId)
    && Valid(w.recordClock) && Valid(w.keyClock)
    && 0.0 <= w.etaDraw < 1.0
  }

  /** The end of one submission: the dialog, the store, the requests sent in
      order, and whether the alert was shown. */
  datatype Trace = Trace(dialog: Dialog, store: Store, requests: seq<UploadDialog.Request>, alert: bool)

  /** One request over the network: what `fetch` settles with and the store
      after the server's part. */
  function Exchange(transport: Transport, served: Served, before: Store): (r: (Fetched, Store))
    ensures transport.Delivered? ==> r == (Answered(served.response), served.store)
    ensures transport.LostOnTheWay? ==> r == (Rejected, before)
    ensures transport.LostOnTheWayBack? ==> r == (Rejected, served.store)
  {
    match transport
    case Delivered => (Answered(served.response), served.store)
    case LostOnTheWay => (Rejected, before)
    case LostOnTheWayBack => (Rejected, served.store)
  }

  /** Pressing submit once and letting the handler run to its end. */
  function Submit(d: Dialog, store: Store, w: World): (t: Trace)
    requires Consistent(d) && d.flight.Idle? && Possible(w)
    // the handler always ends with nothing outstanding
    ensures Consistent(t.dialog) && t.dialog.flight.Idle? && !t.dialog.submitting
    // the upload is always the first request and the submission the second
    ensures |t.requests| <= 2
    ensures |t.requests| >= 1 ==> t.requests[0].UploadCall?
    ensures |t.requests| == 2 ==> t.requests[1].SubmitCall?
    // nothing is sent, shown or stored unless the button and the guard allow it
    ensures t.requests == [] <==> !(d.success.None? && !ButtonDisabled(d) && ReadyToSend(d.form))
    ensures t.requests == [] ==> t == Trace(d, store, [], false)
    // once something is sent, the run ends in exactly one of confirmation or alert
    ensures t.requests != [] ==> (t.dialog.success.Some? <==> !t.alert)
    ensures t.dialog.form == d.form && t.dialog.queueInfo == d.queueInfo
  {
    var s1 := SubmitForm(d);
    if s1.request.None? then Trace(s1.dialog, store, [], false)
    else
      var up := s1.request.value;
      var (f1, store1) := SendUpload(up.form, store, w);
      AfterUpload(UploadSettled(s1.dialog, f1, w.userAgent), up, store1, w)
  }

  /** The handler from the moment the upload settled: `s2` is the dialog's
      step then, `up` the upload already sent. */
  function AfterUpload(s2: Step, up: UploadDialog.Request, store1: Store, w: World): (t: Trace)
    requires Possible(w) && Consistent(s2.dialog)
    requires s2.request.Some? ==> s2.request.value.SubmitCall? && s2.dialog.flight.AwaitingSubmit?
                                  && s2.dialog.success.None?
    ensures Consistent(t.dialog) && (s2.request.Some? ==> t.dialog.flight.Idle? && !t.dialog.submitting)
    ensures 1 <= |t.requests| <= 2 && t.requests[0] == up
    ensures |t.requests| == 2 <==> s2.request.Some?
    ensures |t.requests| == 2 ==> t.requests[1] == s2.request.value
    ensures s2.request.None? ==> t == Trace(s2.dialog, store1, [up], s2.alert)
    ensures s2.request.Some? ==> (t.dialog.success.Some? <==> !t.alert)
    ensures t.dialog.form == s2.dialog.form && t.dialog.queueInfo == s2.dialog.queueInfo
  {
    if s2.request.None? then Trace(s2.dialog, store1, [up], s2.alert)
    else
      var sub := s2.request.value;
      var (f2, store2) := SendSubmission(sub.body, store1, w);
      var s3 := SubmitSettled(s2.dialog, f2, w.etaDraw);
      Trace(s3.dialog, store2, [up, sub], s3.alert)
  }

  /** `fetch('/api/upload', ...)` against the upload route. */
  function SendUpload(form: FormData, store: Store, w: World): (Fetched, Store)
    requires Possible(w)
  {
    Exchange(w.uploadTransport, UploadRoute.Post(UploadRoute.Request(Some(form)), store, w.uploadId, w.uploadFault), store)
  }

  /** `fetch('/api/submit', ...)` against the submit route. */
  function SendSubmission(body: Json, store: Store, w: World): (Fetched, Store)
    requires Possible(w)
  {
    Exchange(w.submitTransport,
             SubmitRoute.Post(SubmitRoute.Request(Some(body), w.forwardedFor), store,
                              w.recordClock, w.keyClock, w.submitId, w.submitFault),
             store)
  }

  /** Pressing the button starts the handler and the handler's guard lets it
      send: no confirmation is shown, the button is enabled and the fields
      the guard reads are set. */
  predicate Sends(d: Dialog) {
    d.success.None? && !ButtonDisabled(d) && ReadyToSend(d.form)
  }

  /** Where the photo of a sending dialog is stored. */
  function PhotoKey(d: Dialog, w: World): string
    requires Sends(d)
  {
    UploadRoute.Key(w.uploadId, d.form.file.value.name)
  }

  /** Where the record is stored. */
  function RecordKey(w: World): string
    requires Possible(w)
  {
    SubmitRoute.Key(IsoPrefix(w.keyClock), w.submitId)
  }

  /** Phase one succeeds, from the browser's point of view, when the request
      and its answer got through and the route stored the photo. */
  predicate UploadSucceeds(d: Dialog, w: World)
    requires Sends(d)
  {
    && w.uploadTransport.Delivered?
    && |d.form.file.value.data| <= UploadRoute.MaxBytes
    && w.uploadFault.Accepts?
  }

  /** The two namespaces never share a key. */
  lemma PhotoAndRecordKeysDiffer(d: Dialog, w: World)
    requires Sends(d) && Possible(w)
    ensures PhotoKey(d, w) != RecordKey(w)
  {
    assert PhotoKey(d, w)[0] == 'u';
    assert RecordKey(w)[0] == 's';
  }

  /** A guarded payload passes the submit route's check exactly when it
      carries a truthy photo URL: the client's guard already makes `email`
      non-empty. */
  lemma PayloadPassesCheck(f: Form, photoUrl: Option<Json>, userAgent: string)
    requires ReadyToSend(f)
    ensures SubmitRoute.HasRequiredFields(Payload(f, photoUrl, userAgent)) <==> Truthy(photoUrl)
  {
  }

  /** Phase two never runs unless phase one succeeded: then the submission is
      never sent, no record is stored, and the alert is shown. */
  lemma NoSubmitWithoutUpload(d: Dialog, store: Store, w: World)
    requires Consistent(d) && d.flight.Idle? && Possible(w)
    requires Sends(d) && !UploadSucceeds(d, w)
    ensures var t := Submit(d, store, w);
            && t.requests == [UploadCall([("file", FilePart(d.form.file.value))])]
            && t.alert && t.dialog.success.None?
            && (t.store.objects == store.objects
                || t.store.objects == store.objects[PhotoKey(d, w) := Photo(d.form.file.value)])
  {
    var file := d.form.file.value;
    var served := UploadRoute.Post(UploadRoute.Request(Some([("file", FilePart(file))])), store, w.uploadId, w.uploadFault);
    assert UploadRoute.FilePartOf([("file", FilePart(file))]) == Some(file);
  }

  /** The stored photo object. */
  function Photo(file: File): Blob {
    Blob(Binary(file.data), UploadRoute.ContentTypeOf(file))
  }

  /** The URL phase one hands to phase two. */
  function PhotoUrl(d: Dialog, store: Store, w: World): string
    requires Sends(d)
  {
    PublicUrl(store, PhotoKey(d, w))
  }

  /** Phase one as the browser sees it when it succeeds. */
  lemma PhotoStored(d: Dialog, store: Store, w: World)
    requires Possible(w) && Sends(d) && UploadSucceeds(d, w)
    ensures SendUpload([("file", FilePart(d.form.file.value))], store, w)
            == (Answered(Response(200, UploadRoute.UploadedBody(PhotoUrl(d, store, w), PhotoKey(d, w)))),
                Store(store.origin, store.objects[PhotoKey(d, w) := Photo(d.form.file.value)]))
  {
    assert UploadRoute.FilePartOf([("file", FilePart(d.form.file.value))]) == Some(d.form.file.value);
  }

  /** Phase two as the browser sees it when it succeeds. */
  lemma RecordStored(body: Json, store: Store, w: World)
    requires Possible(w) && SubmitRoute.HasRequiredFields(body)
    requires w.submitTransport.Delivered? && w.submitFault.Accepts?
    ensures body.JObj?
    ensures SendSubmission(body, store, w)
            == (Answered(Response(200, SubmitRoute.Accepted(RecordKey(w)))),
                Store(store.origin, store.objects[RecordKey(w) :=
                  SubmitRoute.RecordBlob(body, ToIso(w.recordClock), SubmitRoute.ClientIp(w.forwardedFor))]))
  {
    TruthyMemberIsObject(body, "email");
  }

  /** The payload phase two sends after phase one succeeded. */
  function SentPayload(d: Dialog, store: Store, w: World): Json
    requires Sends(d)
  {
    Payload(d.form, Some(JStr(PhotoUrl(d, store, w))), w.userAgent)
  }

  /** The dialog's step once phase one succeeded. */
  function FirstPhaseSucceeds(d: Dialog, store: Store, w: World): Step
    requires Sends(d)
  {
    Step(d.(submitting := true, flight := AwaitingSubmit(Snapshot(d.form, d.queueInfo))),
         Some(SubmitCall(SentPayload(d, store, w))), false)
  }

  /** Phase one succeeding: the photo is stored and the handler goes on to
      send the payload that names its URL. */
  lemma FirstPhase(d: Dialog, store: Store, w: World)
    requires Consistent(d) && d.flight.Idle? && Possible(w)
    requires Sends(d) && UploadSucceeds(d, w)
    ensures Submit(d, store, w)
            == AfterUpload(FirstPhaseSucceeds(d, store, w), UploadCall([("file", FilePart(d.form.file.value))]),
                           Store(store.origin, store.objects[PhotoKey(d, w) := Photo(d.form.file.value)]), w)
  {
    var file := d.form.file.value;
    var up := UploadCall([("file", FilePart(file))]);
    var s1 := SubmitForm(d);
    assert s1.request == Some(up);
    var url := PhotoUrl(d, store, w);
    var store1 := Store(store.origin, store.objects[PhotoKey(d, w) := Photo(file)]);
    var f1 := Answered(Response(200, UploadRoute.UploadedBody(url, PhotoKey(d, w))));
    assert SendUpload(up.form, store, w) == (f1, store1) by {
      PhotoStored(d, store, w);
    }
    assert UploadedUrl(UploadRoute.UploadedBody(url, PhotoKey(d, w))) == Some(Some(JStr(url)));
    assert UploadSettled(s1.dialog, f1, w.userAgent) == FirstPhaseSucceeds(d, store, w);
  }

  /** Phase two reaching a route that stores the record: the dialog settles
      on the route's success answer. */
  lemma SecondPhaseStored(s2: Step, up: UploadDialog.Request, store1: Store, w: World)
    requires Possible(w) && Consistent(s2.dialog)
    requires s2.request.Some? && s2.request.value.SubmitCall? && s2.dialog.flight.AwaitingSubmit?
             && s2.dialog.success.None?
    requires SubmitRoute.HasRequiredFields(s2.request.value.body)
    requires w.submitTransport.Delivered? && w.submitFault.Accepts?
    ensures s2.request.value.body.JObj?
    ensures var record := SubmitRoute.RecordBlob(s2.request.value.body, ToIso(w.recordClock),
                                                 SubmitRoute.ClientIp(w.forwardedFor));
            var s3 := SubmitSettled(s2.dialog, Answered(Response(200, SubmitRoute.Accepted(RecordKey(w)))), w.etaDraw);
            AfterUpload(s2, up, store1, w)
              == Trace(s3.dialog, Store(store1.origin, store1.objects[RecordKey(w) := record]),
                       [up, s2.request.value], s3.alert)
  {
    RecordStored(s2.request.value.body, store1, w);
  }

  /** Phase two against a store that throws: whatever the network does, the
      record is not written and the handler abandons. */
  lemma SecondPhaseFails(s2: Step, up: UploadDialog.Request, store1: Store, w: World)
    requires Possible(w) && Consistent(s2.dialog)
    requires s2.request.Some? && s2.request.value.SubmitCall? && s2.dialog.flight.AwaitingSubmit?
             && s2.dialog.success.None?
    requires w.submitFault.Throws?
    ensures AfterUpload(s2, up, store1, w)
              == Trace(Abandon(s2.dialog).dialog, store1, [up, s2.request.value], true)
  {
    var body := s2.request.value.body;
    if SubmitRoute.HasRequiredFields(body) {
      TruthyMemberIsObject(body, "email");
    }
  }

  /** Both phases reach routes that store: the whole run, written out. */
  lemma BothPhases(d: Dialog, store: Store, w: World)
    requires Consistent(d) && d.flight.Idle? && Possible(w)
    requires Sends(d) && UploadSucceeds(d, w)
    requires w.submitTransport.Delivered? && w.submitFault.Accepts?
    ensures SentPayload(d, store, w).JObj?
    ensures var record := SubmitRoute.RecordBlob(SentPayload(d, store, w), ToIso(w.recordClock),
                                                 SubmitRoute.ClientIp(w.forwardedFor));
            var s3 := SubmitSettled(FirstPhaseSucceeds(d, store, w).dialog,
                                    Answered(Response(200, SubmitRoute.Accepted(RecordKey(w)))), w.etaDraw);
            Submit(d, store, w)
              == Trace(s3.dialog,
                       Store(store.origin, store.objects[PhotoKey(d, w) := Photo(d.form.file.value)]
                                                        [RecordKey(w) := record]),
                       [UploadCall([("file", FilePart(d.form.file.value))]), SubmitCall(SentPayload(d, store, w))],
                       s3.alert)
  {
    var s2 := FirstPhaseSucceeds(d, store, w);
    FirstPhase(d, store, w);
    PayloadPassesCheck(d.form, Some(JStr(PhotoUrl(d, store, w))), w.userAgent);
    SecondPhaseStored(s2, UploadCall([("file", FilePart(d.form.file.value))]),
                      Store(store.origin, store.objects[PhotoKey(d, w) := Photo(d.form.file.value)]), w);
  }

  /** Both phases succeed on the server: both objects are written, and
      nothing else. */
  lemma BothStored(d: Dialog, store: Store, w: World)
    requires Consistent(d) && d.flight.Idle? && Possible(w)
    requires Sends(d) && UploadSucceeds(d, w)
    requires w.submitTransport.Delivered? && w.submitFault.Accepts?
    ensures SentPayload(d, store, w).JObj?
    ensures var t := Submit(d, store, w);
            && |t.requests| == 2
            && t.store.objects == store.objects
                 [PhotoKey(d, w) := Photo(d.form.file.value)]
                 [RecordKey(w) := SubmitRoute.RecordBlob(SentPayload(d, store, w), ToIso(w.recordClock),
                                                         SubmitRoute.ClientIp(w.forwardedFor))]
  {
    BothPhases(d, store, w);
  }

  /** Everything goes through and the dialog holds an estimate: the
      confirmation shows the estimate's position and an ETA of 12 to 21
      hours, and no alert is shown. */
  lemma HappyPath(d: Dialog, store: Store, w: World)
    requires Consistent(d) && d.flight.Idle? && Possible(w)
    requires Sends(d) && UploadSucceeds(d, w)
    requires w.submitTransport.Delivered? && w.submitFault.Accepts?
    requires d.queueInfo.Some?
    ensures var t := Submit(d, store, w);
            && !t.alert
            && t.dialog.success == Some(Confirmation(d.queueInfo.value.next, EtaText(w.etaDraw)))
            && 12 <= EtaHours(w.etaDraw) <= 21
  {
    BothPhases(d, store, w);
  }

  /** The stored record points at the stored photo and carries the
      submitter's email and the time it was written. */
  lemma RecordPointsAtPhoto(d: Dialog, store: Store, w: World)
    requires Consistent(d) && d.flight.Idle? && Possible(w)
    requires Sends(d) && UploadSucceeds(d, w)
    requires w.submitTransport.Delivered? && w.submitFault.Accepts?
    ensures var objects := Submit(d, store, w).store.objects;
            && PhotoKey(d, w) in objects && RecordKey(w) in objects
            && objects[PhotoKey(d, w)] == Photo(d.form.file.value)
            && var record := objects[RecordKey(w)].content;
               && record.Document?
               && Member(record.json, "photoUrl") == Some(JStr(PhotoUrl(d, store, w)))
               && Member(record.json, "email") == Some(JStr(d.form.email))
               && Member(record.json, "createdAt") == Some(JStr(ToIso(w.recordClock)))
  {
    BothStored(d, store, w);
    StoredPair(d, store, w);
  }

  /** The two objects a successful run writes, read back from the store. */
  lemma StoredPair(d: Dialog, store: Store, w: World)
    requires Possible(w) && Sends(d)
    requires SentPayload(d, store, w).JObj?
    ensures var record := SubmitRoute.RecordBlob(SentPayload(d, store, w), ToIso(w.recordClock),
                                                 SubmitRoute.ClientIp(w.forwardedFor));
            var objects := store.objects[PhotoKey(d, w) := Photo(d.form.file.value)][RecordKey(w) := record];
            && objects[PhotoKey(d, w)] == Photo(d.form.file.value)
            && var json := objects[RecordKey(w)].content.json;
               && Member(json, "photoUrl") == Some(JStr(PhotoUrl(d, store, w)))
               && Member(json, "email") == Some(JStr(d.form.email))
               && Member(json, "createdAt") == Some(JStr(ToIso(w.recordClock)))
  {
    PhotoAndRecordKeysDiffer(d, w);
    RecordFields(SentPayload(d, store, w), ToIso(w.recordClock), SubmitRoute.ClientIp(w.forwardedFor));
  }

  /** What the stored record says about the fields the client sent. */
  lemma RecordFields(body: Json, createdAt: string, ip: string)
    requires body.JObj?
    ensures var json := SubmitRoute.RecordBlob(body, createdAt, ip).content.json;
            && Member(json, "createdAt") == Some(JStr(createdAt))
            && Member(json, "ip") == Some(JStr(ip))
            && forall k :: k in body.fields && k != "createdAt" && k != "ip" ==> Member(json, k) == Member(body, k)
  {
  }

  /** With no estimate in the closure, `queueInfo.next` throws after both
      requests succeeded: both objects are stored, yet the run ends in the
      alert with no confirmation, inviting a retry that stores everything
      again. */
  lemma StoredButAlerted(d: Dialog, store: Store, w: World)
    requires Consistent(d) && d.flight.Idle? && Possible(w)
    requires Sends(d) && UploadSucceeds(d, w)
    requires w.submitTransport.Delivered? && w.submitFault.Accepts?
    requires d.queueInfo.None?
    ensures var t := Submit(d, store, w);
            && |t.requests| == 2 && t.alert && t.dialog.success.None?
            && PhotoKey(d, w) in t.store.objects && RecordKey(w) in t.store.objects
            && Sends(t.dialog)
  {
    BothPhases(d, store, w);
  }

  /** The second write failing leaves the photo stored with no record pointing
      at it; nothing removes it. */
  lemma OrphanedPhoto(d: Dialog, store: Store, w: World)
    requires Consistent(d) && d.flight.Idle? && Possible(w)
    requires Sends(d) && UploadSucceeds(d, w)
    requires w.submitFault.Throws?
    ensures var t := Submit(d, store, w);
            && |t.requests| == 2 && t.alert && t.dialog.success.None?
            && t.store.objects == store.objects[PhotoKey(d, w) := Photo(d.form.file.value)]
  {
    FirstPhase(d, store, w);
    SecondPhaseFails(FirstPhaseSucceeds(d, store, w), UploadCall([("file", FilePart(d.form.file.value))]),
                     Store(store.origin, store.objects[PhotoKey(d, w) := Photo(d.form.file.value)]), w);
  }
}
