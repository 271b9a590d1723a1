/** The browser side of the intake: the container that owns the dialog's
    visibility, and the dialog's form, mount effect and two-phase submit
    handler, written as a state machine whose steps are the points where the
    handler resumes. */
module UploadDialog {
  import opened Web
  import opened Text
  import opened QueueEstimate

  datatype Channel = Etsy | Shopify | CraftFair | Instagram

  datatype Brand = Budget | Mid | Premium

  function ChannelName(c: Channel): string {
    match c
    case Etsy => "Etsy"
    case Shopify => "Shopify"
    case CraftFair => "Craft fair"
    case Instagram => "Instagram"
  }

  function BrandName(b: Brand): string {
    match b
    case Budget => "budget"
    case Mid => "mid"
    case Premium => "premium"
  }

  /** The form's fields. None stands for the empty selection `''` of `hours`,
      `channel` and `brand`, and for no chosen file. */
  datatype Form = Form(file: Option<File>, email: string, materials: string,
                       hours: Option<int>, channel: Option<Channel>, brand: Option<Brand>)

  /** The fields of a newly mounted dialog; the brand starts at `mid`. */
  const BlankForm: Form := Form(None, "", "", None, None, Some(Mid))

  /** The confirmation shown after a full success. */
  datatype Confirmation = Confirmation(queue: int, eta: string)

  /** The values `handleSubmit` closed over when it was called; later edits
      to the form do not reach a submission already under way. */
  datatype Snapshot = Snapshot(form: Form, queueInfo: Option<QueueInfo>)

  /** Where a running `handleSubmit` is suspended, if one is. */
  datatype Flight = Idle | AwaitingUpload(snap: Snapshot) | AwaitingSubmit(snap: Snapshot)

  datatype Dialog = Dialog(form: Form, submitting: bool, success: Option<Confirmation>,
                           queueInfo: Option<QueueInfo>, flight: Flight)

  /** `submitting` is true exactly while a request is outstanding. */
  predicate Consistent(d: Dialog) {
    d.submitting <==> !d.flight.Idle?
  }

  /** A request the dialog sends: the multipart upload, then the JSON submission. */
  datatype Request = UploadCall(form: FormData) | SubmitCall(body: Json)

  /** How a `fetch` settles: rejected by the transport, or answered. */
  datatype Fetched = Rejected | Answered(response: Response)

  /** One step of the dialog: its new state, the request it sends (if any),
      and whether it shows the "Something went wrong" alert. */
  datatype Step = Step(dialog: Dialog, request: Option<Request>, alert: bool)

  /** Mounting a dialog: blank fields, then the queue-estimate effect. */
  function Mount(storage: SessionStorage, today: string, u: real, dailyLimit: int): (r: (Dialog, SessionStorage))
    requires 0.0 <= u < 1.0
    ensures r.0.form == BlankForm && !r.0.submitting && r.0.success.None? && r.0.flight.Idle?
    ensures Consistent(r.0)
    ensures (r.0.queueInfo, r.1) == (Load(storage, today, u, dailyLimit).info, Load(storage, today, u, dailyLimit).storage)
  {
    var loaded := Load(storage, today, u, dailyLimit);
    (Dialog(BlankForm, false, None, loaded.info, Idle), loaded.storage)
  }

  // Editing the form

  datatype Edit =
    | ChooseFile(file: Option<File>)
    | TypeEmail(email: string)
    | TypeMaterials(materials: string)
    | TypeHours(hours: Option<int>)
    | PickChannel(channel: Option<Channel>)
    | PickBrand(brand: Option<Brand>)

  /** The inputs' `onChange` handlers: each changes its own field. The inputs
      stay enabled while a request is outstanding. */
  function ApplyEdit(d: Dialog, e: Edit): (r: Dialog)
    ensures r.form.file == if e.ChooseFile? then e.file else d.form.file
    ensures r.form.email == if e.TypeEmail? then e.email else d.form.email
    ensures r.form.materials == if e.TypeMaterials? then e.materials else d.form.materials
    ensures r.form.hours == if e.TypeHours? then e.hours else d.form.hours
    ensures r.form.channel == if e.PickChannel? then e.channel else d.form.channel
    ensures r.form.brand == if e.PickBrand? then e.brand else d.form.brand
    ensures r.submitting == d.submitting && r.success == d.success
    ensures r.queueInfo == d.queueInfo && r.flight == d.flight
    ensures Consistent(d) ==> Consistent(r)
  {
    var f := d.form;
    var f' := match e
      case ChooseFile(x) => f.(file := x)
      case TypeEmail(x) => f.(email := x)
      case TypeMaterials(x) => f.(materials := x)
      case TypeHours(x) => f.(hours := x)
      case PickChannel(x) => f.(channel := x)
      case PickBrand(x) => f.(brand := x);
    d.(form := f')
  }

  // Submitting

  /** `disabled={submitting || !file}` on the submit button. */
  predicate ButtonDisabled(d: Dialog)
    ensures d.submitting ==> ButtonDisabled(d)
    ensures d.form.file.None? ==> ButtonDisabled(d)
    ensures !ButtonDisabled(d) ==> !d.submitting && d.form.file.Some?
  {
    d.submitting || d.form.file.None?
  }

  /** The guard of `handleSubmit`: `!file || !email || !channel` returns
      early, with `!email` JavaScript's falsiness of a string. */
  predicate ReadyToSend(f: Form)
    ensures ReadyToSend(f) <==> f.file.Some? && Truthy(Some(JStr(f.email))) && f.channel.Some?
  {
    f.file.Some? && f.email != "" && f.channel.Some?
  }

  /** Submitting the form. The form exists only while no confirmation is shown,
      and a disabled button submits nothing; otherwise `handleSubmit` runs its
      guard and, when it passes, sets `submitting` and sends the upload. */
  function SubmitForm(d: Dialog): (r: Step)
    requires Consistent(d)
    ensures Consistent(r.dialog) && !r.alert
    ensures r.request.Some? <==> d.success.None? && !ButtonDisabled(d) && ReadyToSend(d.form)
    ensures r.request.None? ==> r.dialog == d
    ensures r.request.Some? ==>
              && r.request.value == UploadCall([("file", FilePart(d.form.file.value))])
              && r.dialog == d.(submitting := true, flight := AwaitingUpload(Snapshot(d.form, d.queueInfo)))
  {
    if d.success.Some? || ButtonDisabled(d) || !ReadyToSend(d.form) then Step(d, None, false)
    else
      Step(d.(submitting := true, flight := AwaitingUpload(Snapshot(d.form, d.queueInfo))),
           Some(UploadCall([("file", FilePart(d.form.file.value))])), false)
  }

  /** The `catch`/`finally` ending: alert, and clear `submitting`. */
  function Abandon(d: Dialog): (r: Step)
    ensures Consistent(r.dialog) && r.alert && r.request.None?
    ensures r.dialog == d.(submitting := false, flight := Idle)
  {
    Step(d.(submitting := false, flight := Idle), None, true)
  }

  /** The members a submission payload can carry. */
  const PayloadNames: set<string> := {"email", "materials", "hours", "channel", "brand", "photoUrl", "userAgent"}

  /** The value the payload gives the member `name`; None when the member is
      `undefined`, which `JSON.stringify` drops. Empty `materials`, `hours` of
      `''` and an empty channel or brand become `undefined`. */
  function PayloadMember(f: Form, photoUrl: Option<Json>, userAgent: string, name: string): Option<Json> {
    if name == "email" then Some(JStr(f.email))
    else if name == "materials" then (if f.materials == "" then None else Some(JStr(f.materials)))
    else if name == "hours" then (if f.hours.None? then None else Some(JNum(f.hours.value)))
    else if name == "channel" then (if f.channel.None? then None else Some(JStr(ChannelName(f.channel.value))))
    else if name == "brand" then (if f.brand.None? then None else Some(JStr(BrandName(f.brand.value))))
    else if name == "photoUrl" then photoUrl
    else if name == "userAgent" then Some(JStr(userAgent))
    else None
  }

  /** The JSON body of the second request. */
  function Payload(f: Form, photoUrl: Option<Json>, userAgent: string): (r: Json)
    ensures r.JObj? && r.fields.Keys <= PayloadNames
    ensures Member(r, "email") == Some(JStr(f.email))
    ensures Member(r, "userAgent") == Some(JStr(userAgent))
    ensures Member(r, "photoUrl") == photoUrl
    ensures Member(r, "materials") == if f.materials == "" then None else Some(JStr(f.materials))
    ensures Member(r, "hours") == if f.hours.None? then None else Some(JNum(f.hours.value))
    ensures Member(r, "channel") == if f.channel.None? then None else Some(JStr(ChannelName(f.channel.value)))
    ensures Member(r, "brand") == if f.brand.None? then None else Some(JStr(BrandName(f.brand.value)))
  {
    JObj(map name | name in PayloadNames && PayloadMember(f, photoUrl, userAgent, name).Some?
                  :: PayloadMember(f, photoUrl, userAgent, name).value)
  }

  /** `const { url: photoUrl } = await upRes.json()`: a `null` body throws
      (None); any other body gives its `url` member, perhaps `undefined`. */
  function UploadedUrl(body: Json): (r: Option<Option<Json>>)
    ensures r.None? <==> body.JNull?
    ensures r.Some? ==> (r.value.Some? <==> body.JObj? && "url" in body.fields)
    ensures r.Some? && r.value.Some? ==> r.value.value == body.fields["url"]
  {
    if body.JNull? then None else Some(Member(body, "url"))
  }

  /** The handler resumes after the upload request settles with `fetched`.
      Unless it was answered with an ok status and a readable body, nothing
      more is sent. `userAgent` is `navigator.userAgent`. */
  function UploadSettled(d: Dialog, fetched: Fetched, userAgent: string): (r: Step)
    requires Consistent(d) && d.flight.AwaitingUpload?
    ensures Consistent(r.dialog)
    ensures r.dialog.form == d.form && r.dialog.success == d.success && r.dialog.queueInfo == d.queueInfo
    ensures r.request.Some? <==> fetched.Answered? && IsOk(fetched.response)
                                 && UploadedUrl(fetched.response.body).Some?
    ensures r.request.Some? ==>
              && r.request.value == SubmitCall(Payload(d.flight.snap.form,
                                                       UploadedUrl(fetched.response.body).value, userAgent))
              && r.dialog.flight == AwaitingSubmit(d.flight.snap) && !r.alert
    ensures r.request.None? ==> r == Abandon(d)
  {
    var snap := d.flight.snap;
    match fetched
    case Rejected => Abandon(d)
    case Answered(resp) =>
      if !IsOk(resp) then Abandon(d)
      else
        match UploadedUrl(resp.body)
        case None => Abandon(d)
        case Some(photoUrl) =>
          Step(d.(flight := AwaitingSubmit(snap)), Some(SubmitCall(Payload(snap.form, photoUrl, userAgent))), false)
  }

  /** `Math.floor(Math.random() * 10) + 12` for a draw `u`. */
  function EtaHours(u: real): (h: int)
    requires 0.0 <= u < 1.0
    ensures 12 <= h <= 21
  {
    (u * 10.0).Floor + 12
  }

  /** `${etaHrs}h`. */
  function EtaText(u: real): (r: string)
    requires 0.0 <= u < 1.0
    ensures |r| == 3 && r[2] == 'h' && IsDigits(r[..2])
    ensures 12 <= Value(r[..2]) <= 21 && Value(r[..2]) == EtaHours(u)
  {
    var digits := Decimal(EtaHours(u));
    TwoDigits(EtaHours(u));
    var r := digits + "h";
    assert r[..2] == digits;
    r
  }

  /** The handler resumes after the submission request settles. Only an ok
      answer AND an estimate in the closure give a confirmation: with no
      estimate, `queueInfo.next` throws and the alert is shown although both
      requests succeeded. `u` is the draw for the ETA. */
  function SubmitSettled(d: Dialog, fetched: Fetched, u: real): (r: Step)
    requires Consistent(d) && d.flight.AwaitingSubmit? && 0.0 <= u < 1.0
    ensures Consistent(r.dialog) && r.request.None?
    ensures !r.dialog.submitting && r.dialog.flight.Idle?
    ensures r.dialog.form == d.form && r.dialog.queueInfo == d.queueInfo
    ensures var ok := fetched.Answered? && IsOk(fetched.response) && d.flight.snap.queueInfo.Some?;
            && (ok ==> !r.alert && r.dialog.success == Some(Confirmation(d.flight.snap.queueInfo.value.next, EtaText(u))))
            && (!ok ==> r == Abandon(d))
  {
    var snap := d.flight.snap;
    match fetched
    case Rejected => Abandon(d)
    case Answered(resp) =>
      if !IsOk(resp) then Abandon(d)
      else
        match snap.queueInfo
        case None => Abandon(d)
        case Some(q) =>
          Step(d.(submitting := false, flight := Idle, success := Some(Confirmation(q.next, EtaText(u)))), None, false)
  }

  /** While a request is outstanding, submitting again sends nothing. */
  lemma NoDoubleSubmit(d: Dialog)
    requires Consistent(d) && !d.flight.Idle?
    ensures SubmitForm(d) == Step(d, None, false)
  {
  }

  /** Edits made while the upload is outstanding do not reach the submission:
      the payload is built from the values `handleSubmit` closed over. */
  lemma EditsDoNotReachPayload(d: Dialog, e: Edit, fetched: Fetched, userAgent: string)
    requires Consistent(d) && d.flight.AwaitingUpload?
    ensures UploadSettled(ApplyEdit(d, e), fetched, userAgent).request
            == UploadSettled(d, fetched, userAgent).request
  {
  }

  // The container

  /** The container's `open` state is whether a dialog is mounted. */
  datatype Container = Container(dialog: Option<Dialog>)

  /** The `open-upload` event: `setOpen(true)`. An open dialog keeps its state;
      a closed one is mounted afresh and runs its mount effect. */
  function Open(c: Container, storage: SessionStorage, today: string, u: real, dailyLimit: int): (r: (Container, SessionStorage))
    requires 0.0 <= u < 1.0
    ensures r.0.dialog.Some?
    ensures c.dialog.Some? ==> r == (c, storage)
    ensures c.dialog.None? ==> r.0.dialog == Some(Mount(storage, today, u, dailyLimit).0)
                               && r.1 == Mount(storage, today, u, dailyLimit).1
  {
    if c.dialog.Some? then (c, storage)
    else
      var (d, s) := Mount(storage, today, u, dailyLimit);
      (Container(Some(d)), s)
  }

  /** `onClose`: `setOpen(false)` unmounts the dialog and drops its state. */
  function Close(c: Container): (r: Container)
    ensures r.dialog.None?
  {
    Container(None)
  }

  /** Opening twice is opening once. */
  lemma OpenIdempotent(c: Container, storage: SessionStorage, today: string, u: real, dailyLimit: int,
                       u2: real)
    requires 0.0 <= u < 1.0 && 0.0 <= u2 < 1.0
    ensures var (c1, s1) := Open(c, storage, today, u, dailyLimit);
            Open(c1, s1, today, u2, dailyLimit) == (c1, s1)
  {
  }

  /** Closing and opening again shows blank fields and no confirmation, and the
      estimate of the day comes back from the session memo. */
  lemma ReopenStartsFresh(c: Container, storage: SessionStorage, today: string, u: real, dailyLimit: int)
    requires 0.0 <= u < 1.0
    requires Stored(storage, today).Some? && Stored(storage, today).value.Saved?
    ensures var d := Open(Close(c), storage, today, u, dailyLimit).0.dialog.value;
            && d.form == BlankForm && d.success.None? && !d.submitting
            && d.queueInfo == Some(Stored(storage, today).value.info)
  {
  }
}
