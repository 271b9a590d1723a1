# PricedRight submission intake, modelled in Dafny

This project models how the PricedRight landing page takes in a jewellery
photo and the details that go with it. Three parts are modelled:

- The upload route, `POST /api/upload`. It checks a multipart form for a
  `file` part and enforces the 10 MiB bound. It then stores the file
  publicly under `uploads/<uuid>-<sanitised name>`.
- The submit route, `POST /api/submit`. It requires a truthy `email` and
  `photoUrl`. It adds the server fields `createdAt` and `ip`, and stores
  the record as JSON under `submissions/<UTC date>-<uuid>.json`.
- The client component `UploadDialog`:
  - the container that mounts and unmounts the dialog on `open-upload`;
  - the dialog's form and its session-memoised queue estimate;
  - the two-phase submit handler: upload the photo, then submit the
    metadata that names it.

Everything the environment decides becomes an explicit input:

- the clock reads, as calendar instants;
- `crypto.randomUUID()`, as a string shaped like a version-4 UUID;
- `Math.random()`, as a real in [0, 1);
- whether the blob store accepts a write;
- what the network does with each request: delivered, lost on the way, or
  lost on the way back;
- `navigator.userAgent` and the `x-forwarded-for` header.

The blob store is a finite map from key to object. A route is a pure
function from the request and the store to the response and the new store.

The dialog is a state machine whose steps are the points where
`handleSubmit` resumes:

1. the form is submitted;
2. the upload settles;
3. the submission settles.

At step 1 the handler closes over a snapshot of the form and the queue
estimate. Later edits do not reach a submission already under way, as with
React's state closures.

The `Intake` module composes the client steps with the two routes. It
proves end-to-end facts about one press of the submit button:

- both objects are written, and the record points at the photo;
- a record never exists without an upload;
- a failed second write leaves the photo orphaned;
- with no queue estimate, both objects are stored but the user still sees
  the failure alert.

Modules, one per file:

- `Web`: JSON, truthiness, responses, form data.
- `Text`: the whitespace class, the sanitiser, digits, the UUID shape.
- `Clock`: `toISOString`.
- `BlobStore`: the object store.
- `UploadRoute`, `SubmitRoute`: the two routes.
- `QueueEstimate`: the session-memoised queue estimate.
- `UploadDialog`: the dialog and its container.
- `Intake`: the end-to-end composition.

Three points of the code the model keeps as they are:

- `Close` has no precondition: the ✕ button and the backdrop call `onClose`
  at any time, also while a request is outstanding
  (`src/components/UploadDialog.tsx:128-132`).
- `photoUrl` is only checked for truthiness (`src/app/api/submit/route.ts:10`);
  the route does not look the photo up. `Intake.PayloadPassesCheck` states
  exactly that check.
- The server does not check `hours`. The browser's `min={0}` validation
  (`src/components/UploadDialog.tsx:188`) is left out, so in the model
  `hours` is any integer.

## Model

| member | source | states |
|---|---|---|
| Web.FormGet | src/app/api/upload/route.ts:8-9 | `form.get(name)` is absent exactly when no part has that name; otherwise it is the first part with the name |
| Web.Member | src/app/api/submit/route.ts:10 | `data?.email` reads a member only from an object that has it, and otherwise gives `undefined` |
| Web.Truthy | src/app/api/submit/route.ts:10 | `!x` in JavaScript: `undefined` and `null` are falsy, every object and array is truthy, and a string is truthy exactly when it is non-empty |
| Web.IsOk | src/components/UploadDialog.tsx:94-113 | `res.ok`: a 200 answer is ok, and the routes' error statuses 400, 413 and 500 are not |
| Web.ErrorResponse | src/app/api/upload/route.ts:11-14 | `NextResponse.json({ error }, { status })`: the given status with a body whose only member is `error`, holding the message |
| Web.TruthyMemberIsObject | src/app/api/submit/route.ts:10 | a truthy `data?.email` can only come from a JSON object that has that member, so the spread on line 14 copies an object |
| Text.IsWhitespace | src/app/api/upload/route.ts:17 | exactly the code points JavaScript's `\s` matches: the ECMAScript WhiteSpace and LineTerminator characters; space, tab, newline and carriage return are in it, and letters, digits, `-`, `.`, `_` and `/` are not |
| Text.Collapse | src/app/api/upload/route.ts:17 | the left-to-right `/\s+/g` scan leaves no whitespace and never lengthens the text |
| Text.Sanitize | src/app/api/upload/route.ts:17 | the sanitised file name contains no whitespace at all |
| Text.SanitizeKeepsClean | src/app/api/upload/route.ts:17 | a file name without whitespace is kept exactly as it is |
| Text.CollapseRun | src/app/api/upload/route.ts:17 | each maximal run of whitespace, however long, becomes one hyphen, and the text on either side is sanitised on its own |
| Text.SanitizeAppend | src/app/api/upload/route.ts:17 | the replacement works piece by piece wherever the cut does not split a whitespace run |
| Text.SanitizeIdempotent | src/app/api/upload/route.ts:17 | sanitising an already sanitised name changes nothing |
| Text.SanitizeKeepsVisible | src/app/api/upload/route.ts:17 | every character that is neither whitespace nor a hyphen survives, in order |
| Text.CollapseAppend | src/app/api/upload/route.ts:17 | the left-to-right `/\s+/g` scan over a concatenation is the scan of the first part followed by the scan of the second, started in the state the first left |
| Text.UuidIsPlain | src/app/api/upload/route.ts:17 | the random id puts no whitespace and no `/` into a key |
| Text.Decimal | src/components/UploadDialog.tsx:117 | `${n}` is a non-empty digit string that reads back as `n`, in canonical form: no leading zero unless `n` is 0 |
| Text.PaddedInjective | src/app/api/submit/route.ts:15 | zero-padded fields of the ISO text are equal only when the numbers are |
| Clock.ToIso | src/app/api/submit/route.ts:15 | `toISOString()` is 24 characters for years 0 to 9999 and 27 otherwise, and ends in `Z` |
| Clock.IsoPrefix | src/app/api/submit/route.ts:19 | `.slice(0,10)` of the ISO text is ten characters and, for years 0 to 9999, the whole calendar date |
| Clock.IsoPrefixIsDate | src/app/api/submit/route.ts:19 | `.slice(0,10)` of the ISO text is the whole calendar date exactly when the year has four digits |
| Clock.YearTextInjective | src/app/api/submit/route.ts:15 | distinct years are rendered differently, including signed six-digit years |
| Clock.CalendarDateIffSameDay | src/app/api/submit/route.ts:15-19 | two instants give the same date text exactly when they fall on the same UTC day |
| BlobStore.Put | src/app/api/upload/route.ts:18-22 | a write that does not throw stores one object under its key and changes nothing else; the URL is the public URL of the key and the pathname is the key |
| UploadRoute.Post | src/app/api/upload/route.ts:6-29 | an unreadable form gives 500; no `file` part, or a text field under that name, gives 400; more than 10 MiB gives 413; otherwise the file is stored under its key with its type and 200 returns its url and pathname, or 500 if the store throws; only a 200 changes the store |
| UploadRoute.FilePartOf | src/app/api/upload/route.ts:9-10 | the route sees a file exactly when the first part named `file` is a file part, and then it is that part's file |
| UploadRoute.Key | src/app/api/upload/route.ts:17 | the key is `uploads/`, the id, a hyphen and the sanitised name, in that order |
| UploadRoute.UploadedBody | src/app/api/upload/route.ts:24 | the success body has exactly the members `url` and `pathname`, holding the stored object's URL and pathname |
| UploadRoute.PostStatus | src/app/api/upload/route.ts:7-28 | each status happens exactly under its own condition; the missing-file check comes first, so a request without a file is never answered 413 |
| UploadRoute.ContentTypeOf | src/app/api/upload/route.ts:20 | the stored type is never empty: it is the file's MIME type, or `application/octet-stream` when the browser gave none |
| UploadRoute.KeyRoundTrip | src/app/api/upload/route.ts:17 | every upload key lies under `uploads/`, contains no whitespace, and gives back its id and the sanitised name |
| UploadRoute.KeysDistinct | src/app/api/upload/route.ts:17 | two upload keys are equal exactly when both the ids and the sanitised names are |
| SubmitRoute.Post | src/app/api/submit/route.ts:6-31 | a body that is not JSON gives 500; a falsy `email` or `photoUrl` gives 400; otherwise the enriched record is stored as JSON under the dated key and 200 returns `{ok, id}`, or 500 if the store throws; only a 200 changes the store |
| SubmitRoute.HasRequiredFields | src/app/api/submit/route.ts:10 | a body passes only if it is an object whose `email` and `photoUrl` are present and neither null nor the empty string; any object with non-empty string values for both passes |
| SubmitRoute.Key | src/app/api/submit/route.ts:19 | the key is `submissions/`, the date, a hyphen, the id and `.json`, in that order |
| SubmitRoute.RecordBlob | src/app/api/submit/route.ts:13-22 | the stored record is a JSON document of type `application/json` whose members are the client's plus `createdAt` and `ip`, the server values winning and every other member copied |
| SubmitRoute.Accepted | src/app/api/submit/route.ts:27 | the success body has exactly the members `ok`, which is `true`, and `id`, the stored pathname |
| SubmitRoute.PostStatus | src/app/api/submit/route.ts:7-31 | 400, 200 and 500 each happen exactly under their own condition |
| SubmitRoute.ClientIp | src/app/api/submit/route.ts:16 | the recorded ip is never empty: the forwarded-for header when present and non-empty, else `unknown` |
| SubmitRoute.Enrich | src/app/api/submit/route.ts:13-17 | the record has the client's members plus `createdAt` and `ip`; the server values override any the client sent; every other member is copied unchanged |
| SubmitRoute.KeyRoundTrip | src/app/api/submit/route.ts:19 | a record key is 64 characters under `submissions/`, ends in `.json`, and gives back its date and id |
| SubmitRoute.KeysDistinct | src/app/api/submit/route.ts:19 | two record keys are equal exactly when both the dates and the ids are, and share their `submissions/<date>` prefix exactly when the dates are equal |
| SubmitRoute.KeyDateMatchesCreatedAt | src/app/api/submit/route.ts:15-19 | the key's date agrees with the date in `createdAt` exactly when the two clock reads fall on the same UTC day (years 0 to 9999) |
| SubmitRoute.MidnightSplitsRecordAndKey | src/app/api/submit/route.ts:15-19 | a request served across midnight files the record under the next day while `createdAt` names the previous one |
| QueueEstimate.CacheKey | src/components/UploadDialog.tsx:65 | the memo key is `pr-queue-` followed by the day's text |
| QueueEstimate.CacheKeyInjective | src/components/UploadDialog.tsx:64-65 | different days are memoised under different keys |
| QueueEstimate.Position | src/components/UploadDialog.tsx:71 | the made-up queue position lies between 4 and 13 |
| QueueEstimate.Fresh | src/components/UploadDialog.tsx:71-73 | a new pair has its position in 4 to 13 and its slots left clamped at zero: `DAILY_LIMIT - next`, or 0 when that is negative |
| QueueEstimate.Load | src/components/UploadDialog.tsx:62-81 | a saved pair for today is used unchanged and nothing is written; unparseable text or unreadable storage leaves no estimate; a missing or empty entry gets a fresh pair stored under today's key; without sessionStorage the pair is shown but not remembered; a failing write leaves no estimate |
| QueueEstimate.LoadIdempotent | src/components/UploadDialog.tsx:64-70 | once a pair came from readable storage, every later mount that day shows the same pair, whatever the random draw, and writes nothing |
| QueueEstimate.LoadTouchesOnlyToday | src/components/UploadDialog.tsx:74-76 | mounting writes at most today's `pr-queue-` entry; all other entries keep their values |
| QueueEstimate.SlotsLeft | src/components/UploadDialog.tsx:210 | the figure is shown exactly when there is an estimate; it is never negative and is `DAILY_LIMIT - next` or 0 |
| QueueEstimate.SlotsLeftMatchesFresh | src/components/UploadDialog.tsx:210 | for a pair this code made, the figure the form shows equals the `left` that was saved |
| UploadDialog.Mount | src/components/UploadDialog.tsx:48-81 | a mounted dialog has blank fields with the brand `mid`, no confirmation, nothing outstanding, and the estimate the storage gives |
| UploadDialog.ApplyEdit | src/components/UploadDialog.tsx:144-195 | each input's change handler sets its own field and leaves the other five fields alone; `submitting`, the confirmation, the estimate and a request under way are untouched |
| UploadDialog.ButtonDisabled | src/components/UploadDialog.tsx:213 | the button is disabled while submitting and while no file is chosen, and enabled otherwise |
| UploadDialog.ReadyToSend | src/components/UploadDialog.tsx:85 | the guard passes exactly when a file is chosen, the email is truthy and a channel is picked |
| UploadDialog.SubmitForm | src/components/UploadDialog.tsx:83-93 | the upload is sent exactly when no confirmation is shown, the button is enabled (not submitting, a file chosen) and the file, email and channel are set; the upload carries just that file, and the handler snapshots the form and estimate |
| UploadDialog.Abandon | src/components/UploadDialog.tsx:118-123 | a failure shows the alert, clears `submitting` and keeps the form and estimate |
| UploadDialog.Payload | src/components/UploadDialog.tsx:98-106 | the payload always carries `email`, `userAgent` and whatever the upload returned as `photoUrl`; empty materials and unset hours, channel or brand are left out; nothing outside the seven names appears |
| UploadDialog.UploadedUrl | src/components/UploadDialog.tsx:95 | destructuring a `null` body throws; any other body gives its `url` member, or `undefined` when it has none |
| UploadDialog.UploadSettled | src/components/UploadDialog.tsx:93-112 | the submission is sent exactly when the upload was answered ok with a readable body; it is built from the snapshot, not the current form; anything else abandons |
| UploadDialog.EtaHours | src/components/UploadDialog.tsx:116 | the ETA lies between 12 and 21 hours |
| UploadDialog.EtaText | src/components/UploadDialog.tsx:116-117 | the ETA text is two digits then `h`, and the digits read back as the ETA |
| UploadDialog.SubmitSettled | src/components/UploadDialog.tsx:113-123 | a confirmation appears exactly when the submission was answered ok and the snapshot held an estimate; it shows the snapshot's position; otherwise the handler abandons with the alert |
| UploadDialog.NoDoubleSubmit | src/components/UploadDialog.tsx:212-213 | while a request is outstanding, submitting again sends nothing and changes nothing |
| UploadDialog.EditsDoNotReachPayload | src/components/UploadDialog.tsx:95-106 | edits made while the upload is outstanding do not change the submission that follows it |
| UploadDialog.Open | src/components/UploadDialog.tsx:37-45 | `open-upload` always leaves a dialog mounted; an open dialog keeps its state; a closed one is mounted afresh |
| UploadDialog.Close | src/components/UploadDialog.tsx:45 | closing unmounts the dialog |
| UploadDialog.OpenIdempotent | src/components/UploadDialog.tsx:40 | a second `open-upload` changes nothing |
| UploadDialog.ReopenStartsFresh | src/components/UploadDialog.tsx:45-81 | after closing, reopening shows blank fields and no confirmation, and brings back the day's estimate from the session memo |
| Intake.Exchange | src/components/UploadDialog.tsx:93-112 | a delivered request returns the route's answer and effect; a request lost on the way changes nothing; an answer lost on the way back rejects the `fetch` although the server acted |
| Intake.Submit | src/components/UploadDialog.tsx:83-124 | one press ends with nothing outstanding; at most two requests go out, upload first; nothing is sent unless the button and guard allow it; once something is sent, the run ends in exactly one of confirmation or alert |
| Intake.AfterUpload | src/components/UploadDialog.tsx:93-123 | after the upload settles, the submission is sent only if the dialog asked for it, and the run then ends in exactly one of confirmation or alert |
| Intake.PhotoAndRecordKeysDiffer | src/app/api/submit/route.ts:19 | a record key never equals a photo key, so the second write cannot overwrite the photo |
| Intake.PayloadPassesCheck | src/app/api/submit/route.ts:10 | a payload that passed the client guard passes the route's check exactly when the upload's `url` was truthy |
| Intake.NoSubmitWithoutUpload | src/components/UploadDialog.tsx:93-94 | when the upload does not succeed, the submission is never sent, the alert shows and there is no confirmation; the store is either unchanged or holds only the new photo (an answer lost after the write), so no record is stored and nothing else is overwritten |
| Intake.PhotoStored | src/app/api/upload/route.ts:17-24 | a successful upload answers with the public URL and key of the stored photo |
| Intake.RecordStored | src/app/api/submit/route.ts:13-27 | a well-formed submission is stored as the enriched record under the dated key and answered 200 |
| Intake.FirstPhase | src/components/UploadDialog.tsx:90-112 | a successful upload leads to the submission of the snapshot's payload naming the returned URL |
| Intake.SecondPhaseStored | src/components/UploadDialog.tsx:108-117 | when the second write succeeds, the record is added to the store and the dialog settles on the route's success answer |
| Intake.SecondPhaseFails | src/components/UploadDialog.tsx:108-120 | when the second write throws, whatever the network does, the store is unchanged and the handler abandons with the alert |
| Intake.BothPhases | src/components/UploadDialog.tsx:83-124 | when both writes succeed, the whole run is the upload, then the submission, then the settled dialog, with both objects stored |
| Intake.BothStored | src/components/UploadDialog.tsx:90-113 | when both writes succeed, exactly two objects are added: the photo under its key and the record under its key |
| Intake.HappyPath | src/components/UploadDialog.tsx:115-117 | with an estimate in the snapshot, full success shows the estimate's position and an ETA of 12 to 21 hours, with no alert |
| Intake.RecordPointsAtPhoto | src/app/api/submit/route.ts:13-20 | after full success the stored record's `photoUrl` is the public URL of the stored photo, and it carries the submitter's email and `createdAt` |
| Intake.StoredPair | src/app/api/submit/route.ts:13-20 | reading the two written keys back gives the photo and a record naming the photo's URL, email and creation time |
| Intake.RecordFields | src/app/api/submit/route.ts:13-17 | the stored record carries `createdAt` and `ip` from the server, and every other client member unchanged |
| Intake.StoredButAlerted | src/components/UploadDialog.tsx:117-120 | with no estimate in the snapshot, both objects are stored yet the run ends in the alert with no confirmation, and the dialog is left ready to send the same form again, so a retry stores a second photo and record |
| Intake.OrphanedPhoto | src/components/UploadDialog.tsx:108-113 | when the second write throws, the photo stays stored with no record naming it, and the alert shows |

## Left out

- JSX rendering, styling, labels and the success view's link are not modelled. The model keeps only what decides behaviour: the button's `disabled` and whether the form or the confirmation is shown.
- `Trigger` and the `CustomEvent` mechanics of `open-upload` are reduced to calling `Open`.
- Listener registration and removal in the container's effect is not modelled; a mounted container reacts to every event.
- HTTP framing, `fetch`, `NextResponse`, headers other than `x-forwarded-for`, and the edge runtime are abstracted. A route is a function from request to response, and the network is a three-way choice per request.
- JSON text is not modelled: `JSON.stringify(payload)`, `JSON.stringify(record, null, 2)`, pretty printing and key order. Bodies travel as parsed JSON values, and `upRes.json()` is taken never to fail on a 2xx body; destructuring a `null` body throws, as `UploadDialog.UploadedUrl` models.
- Numbers are integers. `hours` is `Number(input)` of an integer, so NaN, fractions and floating-point rounding are not modelled. `DAILY_LIMIT` is an integer parameter that defaults to 30.
- Browser constraint validation (`required`, `type=email`, `min`, `accept="image/*"`) is not modelled. The handler's own guard is.
- BlobStore.Put: assumes `put` adds no random suffix, so the returned pathname is the key and the URL is the origin, `/`, and the key; a store that renamed the object would break `Intake.RecordPointsAtPhoto`.
- `put` overwrites silently in the model. A refusal to overwrite an existing pathname is folded into the store's fault input, as a throwing write.
- The token check and other store-side failures are likewise part of the fault input.
- A handler still in flight after the dialog is closed is not modelled. `Close` discards the dialog, and the `Intake` lemmas follow one press with the dialog open.
- `alert` and `console.error` are not modelled beyond a flag saying the alert was shown.
- sessionStorage text that parses as JSON but is not a `{next, left}` pair is not modelled. Entries are a saved pair, empty text, or unparseable text.
- `toDateString()` is an input string, since the local time zone is not modelled.
- The range of a JavaScript `Date` is approximated by years within ±999999.
- Several tabs or sessions acting at once are not modelled. Each run is sequential over one store.
- `page.tsx`, `SampleReportModal` and the rest of the landing page are outside this model.
