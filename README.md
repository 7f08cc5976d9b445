# audiovisualsys: a Dafny model of the page script and the conversion views

audiovisualsys is a small Django site that turns an audio clip into an image
and an image into audio. The browser page records or uploads a file and posts
it to `/`. The page then renders whatever the JSON reply's `type` says. This
project models the decision logic of that round trip and proves what it
promises:

- `Cookies` (static/js/index.js, `getCSRFToken`): split `document.cookie` on
  `;`, trim each entry, and return the decoded remainder of the first entry
  that starts exactly with `csrftoken=`. This is a method with a loop, proved
  against a direct statement of "first matching entry". The string built-ins
  it relies on are modelled with their ECMAScript behaviour: `split`, `trim`
  with its whitespace set, and `substring` with its clamping. `split` and
  `trim` are proved against independent characterisations; `substring`'s
  contract gives the slice for each ordering of its clamped arguments.
  `decodeURIComponent` is a parameter that may throw.
- `Recording` (static/js/index.js, `toggleRecording` and the recorder
  handlers): a class whose fields are the script's module-level state. Those
  are the `isRecording` flag, the recorder's state and the `audioChunks`
  buffer, plus the status line and the preview element the handlers write.
  Starting empties the buffer. Only non-empty chunks are kept. Stopping
  assembles one `audio/webm` blob whose bytes are every delivered byte, in
  order.
- `Client` (static/js/index.js, the two form handlers and
  `submitRecordedAudio`): dispatch on the reply's `type`. It also covers the
  loading indicator's last state, the audio form's guard against submitting
  nothing, and the `|| "N/A"` metadata defaults.
- `Views` (app/views.py): `homepage` routes on which upload field is present,
  with fixed status codes and reply shapes.
- `Convert` (app/convert.py): the sample-count arithmetic of
  `image_to_audio`, and its trim-or-pad step to exactly 441000 samples.
- `Interplay`: the script and the views together. Three facts follow from the
  code as written:
  - Error replies from the server carry no `type`. So the forms' `"error"`
    and `"quota_error"` branches never fire for this server; every failure
    shows the generic alert.
  - A converted upload is rendered by the form that sent it.
  - `submitRecordedAudio` sends the recording as the plain field
    `recorded_audio`, not as a file. `homepage` therefore answers 400, and the
    script only logs that reply.

Browser APIs, the network, the conversion libraries, base64 and the file
system are inputs of the model, never called.

Two behaviours of the code are easy to miss:
- The chunk buffer is cleared when a session starts, not when it is
  assembled: `OnStop` leaves it as it was.
- Not every failure reaches the user. `submitRecordedAudio` only logs a reply
  that is not an image. It also loses failures that happen after the blob has
  been read (see Findings).

## Model

| member | source | states |
|---|---|---|
| Cookies.Split | static/js/index.js:8 | `split` always yields at least one piece, so an empty header still gives one (empty) entry |
| Cookies.SplitSeparatorFree | static/js/index.js:8 | no piece of the split header contains `;` |
| Cookies.JoinSplit | static/js/index.js:8 | joining the pieces with `;` gives back the header: nothing is lost or reordered |
| Cookies.SplitJoin | static/js/index.js:8 | splitting a `;`-join of `;`-free pieces gives exactly those pieces (inverse direction) |
| Cookies.TrimStartSpec | static/js/index.js:10 | leading trim removes a whitespace-only head and stops at the first other character |
| Cookies.TrimEndSpec | static/js/index.js:10 | trailing trim removes a whitespace-only tail and stops at the last other character |
| Cookies.TrimSpec | static/js/index.js:10 | `trim` returns the middle of the entry between a whitespace-only head and tail, itself without surrounding whitespace |
| Cookies.TrimUnique | static/js/index.js:10 | that characterisation has exactly one solution, so it defines `trim` independently of the code |
| Cookies.TrimUnpadded | static/js/index.js:10 | an entry without surrounding whitespace is compared unchanged |
| Cookies.Substring | static/js/index.js:11-12 | `substring` clamps both arguments to the length and swaps them when the start is the larger, in every case giving the slice between them |
| Cookies.MatchIsExactPrefix | static/js/index.js:11-12 | the loop's test holds exactly when the entry starts with `csrftoken=`, and the text decoded is exactly what follows that prefix |
| Cookies.NearMissesRejected | static/js/index.js:11 | entries such as `csrftokenx=…` and `xcsrftoken=…` never match; `csrftoken…` matches only if `=` follows the name |
| Cookies.Decoded | static/js/index.js:12 | decoding a matched entry never reads as "no token": it yields the token or the thrown `URIError` |
| Cookies.GetCSRFToken | static/js/index.js:4-18 | null exactly when the header is empty or no trimmed entry starts with `csrftoken=`; otherwise the decoded remainder of the first such entry (or the decoder's error) |
| Cookies.FirstTokenWins | static/js/index.js:9-14 | with two `csrftoken` entries, the first one's value is returned and the later one is ignored |
| Recording.StartErrorStatus | static/js/index.js:109-121 | a failed start shows the permission message for `NotAllowedError`, the no-device message for `NotFoundError`, and `Error: <message>` otherwise |
| Recording.StartError | static/js/index.js:38-54 | every start attempt except a successful one throws into the `catch` block |
| Recording.NonEmpty | static/js/index.js:57-61 | the chunks kept by the data handler all have positive size and are no more than were delivered |
| Recording.NonEmptyAppend | static/js/index.js:57-61 | one more data event appends that chunk if and only if its size is positive |
| Recording.ConcatAppend | static/js/index.js:70 | one more chunk appends its bytes to the blob |
| Recording.NonEmptyKeepsBytes | static/js/index.js:58-70 | dropping empty chunks does not change the blob's bytes |
| Recording.SessionBytes | static/js/index.js:63-70 | the kept chunks carry all delivered bytes, and there are none exactly when no byte arrived |
| Recording.RecordingSession.constructor | static/js/index.js:21-23 | before any press: not recording, no recorder, empty buffer, no preview |
| Recording.RecordingSession.Toggle | static/js/index.js:25-134 | the flag is set only by a successful start and cleared by every stop; a start that got as far as creating a recorder empties the buffer; `stop()` is called only when the recorder is not inactive; the buffer and the preview are otherwise untouched |
| Recording.RecordingSession.OnDataAvailable | static/js/index.js:57-61 | a chunk is appended exactly when its size is positive; the buffer keeps only non-empty chunks |
| Recording.RecordingSession.OnStop | static/js/index.js:63-94 | an empty buffer shows the "No audio data recorded" error and leaves the preview as it was; otherwise the preview becomes one `audio/webm` blob of all chunks in order |
| Recording.RecordingSession.OnError | static/js/index.js:96-100 | a recorder error shows "Error: Recording failed" |
| Recording.RecordingSession.Halt | static/js/index.js:124 | the recorder can become inactive while the flag stays set, which is why the stop branch checks the recorder's state |
| Recording.StartFresh | static/js/index.js:37-108 | a first press with a working microphone leaves the page recording with an empty buffer |
| Recording.Deliver | static/js/index.js:57-61 | a sequence of data events leaves exactly the non-empty chunks in the buffer, in arrival order |
| Recording.RecordOnce | static/js/index.js:25-94 | a whole start, data, stop session previews exactly the delivered bytes as one `audio/webm` blob, or reports that no audio was recorded when no byte arrived |
| Client.SuccessTag | static/js/index.js:338 | the audio form renders `"image"` replies and the image form `"audio"` replies |
| Client.Dispatch | static/js/index.js:418-430 | the form's own tag renders the reply; `"error"` and `"quota_error"` alert with `data.error`; any other reply shows the generic alert; the four cases are exclusive and exhaustive |
| Client.SendAndHandle | static/js/index.js:396-445 | a request is sent unless building its token header throws; once sent, the loader is hidden on every path; a failed fetch or a `null` body shows the form's failure alert |
| Client.SubmitImageForm | static/js/index.js:311-366 | the image form always posts unless the token lookup throws, and renders only `"audio"` replies |
| Client.SubmitAudioForm | static/js/index.js:374-446 | with neither a file nor a recording it warns and sends nothing, leaving the loader alone; otherwise it posts unless the token lookup throws, and renders only `"image"` replies |
| Client.LoaderSettles | static/js/index.js:351-364 | in both forms, every path after the request was issued ends with the loader hidden, network failure included |
| Client.FormsAgreeOffSuccess | static/js/index.js:340-350 | the two forms treat every reply that is neither an image nor an audio reply identically |
| Client.CrossedReplyIsUnexpected | static/js/index.js:418-430 | a form given the other form's kind of result shows the generic alert |
| Client.SubmitRecordingAsWritten | static/js/index.js:136-192 | as written: a failed blob read alerts; once the blob is read, only an image reply is rendered and any other parsed reply is only logged (loader hidden); a token lookup that throws, a rejected POST or a `null` body escapes the handler uncaught with the loader left shown |
| Client.RecordingFailureIsSilent | static/js/index.js:146-185 | for every failure after the blob was read (token, POST or `null` body), the handler as written leaves the loader shown and tells the user nothing, while the corrected one alerts and hides it |
| Client.SubmitRecording | static/js/index.js:136-192 | corrected: once the blob is read, the loader is hidden on every path and every failure is reported with the handler's alert |
| Client.SubmitRecordingAgreesOnReplies | static/js/index.js:136-192 | the correction changes only the failure paths: an unread blob is reported as written, and a parsed non-`null` reply is handled as written, with a found token or with none (header `"null"`) |
| Client.MetaValue | static/js/index.js:214-215 | a metadata field shows `N/A` exactly when it is falsy (missing, null, false, 0 or empty), and the field's value otherwise |
| Client.Metadata | static/js/index.js:211-227 | each listed metadata line is `N/A` exactly when its field is falsy, and otherwise that field's value |
| Client.EmptyFieldReadsAsMissing | static/js/index.js:214-225 | an empty-string field renders exactly as a missing one |
| Views.ErrorReply | app/views.py:25-29 | an error reply is `{'error': message}` with the given status and nothing else |
| Views.SuccessReply | app/views.py:51-57 | a success reply has status 200 and holds `type` and the base64 text under the key named by that type |
| Views.AudioToImage | app/views.py:31-61 | status 200 exactly when the conversion succeeded, replying `type: 'image'` with the encoded image; otherwise 500 with the exception text |
| Views.ImageToAudio | app/views.py:63-92 | status 200 exactly when the conversion succeeded, replying `type: 'audio'` with the encoded audio; otherwise 500 with the exception text |
| Views.Homepage | app/views.py:16-29 | non-POST renders the page with 200; `audio_file` wins over `image_file`; neither gives 400 `No file provided`; a raised exception gives 500; every status is 200, 400 or 500; every error reply is exactly `{'error': …}` with no `type` |
| Views.AudioUploadWins | app/views.py:20-23 | with both uploads present, the image upload cannot influence the answer |
| Convert.ResizedSide | app/convert.py:28-32 | the side is the floor of 441000 over the height; a zero height raises |
| Convert.FitToDuration | app/convert.py:37-41 | the result has exactly 441000 samples: the first 441000 in order when there are more, otherwise the originals followed by zeros |
| Convert.FitToDurationIdempotent | app/convert.py:37-41 | the step leaves samples unchanged exactly when there are already 441000, so applying it twice is applying it once |
| Convert.ImageToAudioSamples | app/convert.py:24-41 | `image_to_audio` fails exactly on a zero height or a height above 441000 (a 0 by 0 resize); otherwise it yields 441000 samples: the mapped pixels of the resized square while they last, then silence |
| Convert.TrimmedIffAtMost663 | app/convert.py:30-41 | the resized square has more pixels than 441000 exactly when the original height is at most 663 |
| Convert.ShortImagesCutTallImagesPadded | app/convert.py:32-41 | an image at most 663 pixels tall fills every sample with a pixel; a taller one (up to 441000) has fewer pixels than samples and ends in silence |
| Interplay.AsJson | app/views.py:57 | a reply dict parses to a JSON object with the same keys, each holding its string |
| Interplay.Received | static/js/index.js:332-335 | the HTML page is not JSON, so parsing it fails; a JSON reply reaches the handler as its object |
| Interplay.ServerErrorsLookUnexpected | static/js/index.js:418-430 | every 400 or 500 reply of `homepage` shows the generic alert in either form, never the `"error"` branch |
| Interplay.AudioUploadRenders | static/js/index.js:405-419 | a POST carrying `audio_file` that the server converts is rendered by the audio form, whether a `csrftoken` cookie was found or the header went out as `"null"` (the view is CSRF-exempt); only a token lookup that throws stops the request |
| Interplay.ImageUploadRenders | static/js/index.js:325-339 | a POST carrying only `image_file` that the server converts is rendered by the image form, whether a `csrftoken` cookie was found or the header went out as `"null"` (the view is CSRF-exempt); only a token lookup that throws stops the request |
| Interplay.RecordedAudioIsRefused | static/js/index.js:154-179 | a recording posted as the `recorded_audio` field reaches `homepage` with no file, gets 400, and is only logged, both by the handler as written and by the corrected one, with or without a `csrftoken` cookie |

## Findings

| source | as written | input that shows it | evidently intended | confidence | as-written member | corrected member |
|---|---|---|---|---|---|---|
| static/js/index.js:138-191 | the `try`/`catch` covers only fetching and reading the recording's blob; the POST, `response.json()` and the token lookup run later, in the asynchronous `onloadend` callback, where a failure escapes | the blob is read, then the POST to `/` rejects (for example the network is down) | the handler's catch alert is shown and the loader is hidden again | high (not executed) | Client.RecordingFailureIsSilent | Client.SubmitRecording |

## Left out

- DOM work is reduced to abstract values: element lookups, `innerHTML`, classes and styles, scrolling, console output. Alerts and status lines become `Outcome` values and strings, and the loader becomes `LoaderEnd`.
- The image and audio `src` strings and the text of interpolated JSON values in alerts and metadata are not modelled. The model keeps the JSON value itself, because string conversion of arbitrary JSON is presentation.
- `previewImage`, `previewAudio` and `setupDragAndDrop` (static/js/index.js:453-564) only read local files and move DOM elements; they have no decision logic beyond "a file was chosen".
- Browser and network APIs (`fetch`, `response.json()`, `FormData`, `FileReader`, `getUserMedia`, `MediaRecorder`, `URL.createObjectURL`) are inputs: a `Reply`, a `StartAttempt`, a blob-read flag, and one method call per recorder event. The ordering of `await` points and callbacks is not modelled.
- `submitRecordedAudio`'s `FileReader` error case, where `reader.result` is `null` and is posted as text, is not modelled.
- The display functions throwing on a missing DOM element, which would land in a form's `catch`, are not modelled: the page's elements are assumed present.
- `decodeURIComponent` is a parameter, with `None` standing for its `URIError`. Base64 (section 4 of RFC 4648) is the parameter `encode`.
- JavaScript strings are UTF-16. Here they are sequences of Unicode scalar values, which only matters for `substring` indices past astral characters. The prefix compared is ASCII, so the result is the same.
- JSON numbers are reals. Decimal-to-double rounding is not modelled.
- `audio_to_image` in app/convert.py is floating-point spectrogram code from librosa and matplotlib. It is the `Conversion` input of `Views.AudioToImage`.
- In `image_to_audio` the following are parameters: PIL decoding, resizing and grayscale; the pixel-to-sample map `p/255*2-1`; and `sf.write`. The resize is assumed to return `side * side` pixels, and a side of 0 (heights above 441000) is Pillow's `ValueError`. A file Pillow cannot open, and errors from `sf.write`, are not modelled here; in `Views` they are part of the `Conversion` input.
- File-system writes and reads in app/views.py are folded into each view's `Conversion` input, and template rendering is the `render` input.
- The audio form's upload field name comes from the page template, which is not part of this model. `Interplay.AudioUploadRenders` assumes it is `audio_file`.
- `SubmitAudioForm` takes "a recording is shown" as an input. In the page that is `RecordingSession.preview`; the two are not linked by a proof.
- staticfiles/js/index.js is an older copy of the handlers with a single `data.type` check, which `Client.Dispatch` already covers.
- app/admin.py, app/models.py and app/urls.py are registration and configuration with no behaviour. audiovisualsys/middleware.py passes requests through and maps exceptions to a constant 500. test_conversion.py checks environment variables and imports a class that app/convert.py does not define.
