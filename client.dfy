/** The submission handlers of static/js/index.js: the image form, the audio
    form with its guard, `submitRecordedAudio`, and the metadata the two
    display functions write. `fetch` and `response.json()` are one input, a
    `Reply`; the `X-CSRFToken` header is the `TokenLookup` of `getCSRFToken`,
    which throws out of the handler when the token cannot be decoded. What
    the user sees at the end is an `Outcome`, and the loading indicator's last
    state a `LoaderEnd`. */
module Client {
  import opened Values
  import Cookies

  datatype Form = AudioForm | ImageForm

  /** How `fetch("/")` and `response.json()` end: a parsed body, or a
      rejection (network failure, a body that is not JSON). */
  datatype Reply = Replied(body: Json) | Failed

  /** What the user is left with. */
  datatype Outcome =
    | Rendered(data: Json)                 // displayGeneratedImage / displayGeneratedAudio
    | ServerErrorAlert(detail: Option<Json>) // alert(`Error: ${data.error}`)
    | QuotaAlert(detail: Option<Json>)     // alert(`OpenAI API Quota Error: ${data.error}...`)
    | Alert(message: string)               // an alert with a fixed text
    | Logged                               // written to the console only
    | Uncaught                             // an exception escapes the handler

  /** The last state of the form's loading indicator. */
  datatype LoaderEnd =
    | NoLoader      // the page has no such element
    | Untouched     // the handler returned before showing it
    | LeftShown     // shown, and never hidden again
    | HiddenAgain   // shown, then hidden

  /** One press of a submit button: whether a POST was issued, what the user
      sees, and the loader's last state. */
  datatype Submission = Submission(requestSent: bool, outcome: Outcome, loader: LoaderEnd)

  const UnexpectedMessage: string := "An unexpected error occurred. Please try again."
  const MissingInputMessage: string :=
    "Please either upload an audio file or record audio before generating an image."
  const RecordedFailureMessage: string :=
    "An error occurred while submitting the recorded audio. Please try again."

  /** The `.catch` alert of each form. */
  function FailureMessage(form: Form): string {
    match form
    case AudioForm => "An error occurred during the AI audio-to-image conversion process. Please try again."
    case ImageForm => "An error occurred during the AI image-to-audio conversion process. Please try again."
  }

  /** The `type` each form renders: the audio form asks for an image, the
      image form for audio. */
  function SuccessTag(form: Form): (tag: string)
    ensures tag == "image" || tag == "audio"
    ensures (tag == "image") <==> form == AudioForm
  {
    match form
    case AudioForm => "image"
    case ImageForm => "audio"
  }

  /** `data.type === tag`; only an object can carry a `type`. */
  predicate TypeIs(data: Json, tag: string) {
    data.JObj? && HasTag(data.fields, "type", tag)
  }

  /** `data.error`. */
  function ErrorField(data: Json): Option<Json> {
    if data.JObj? then Field(data.fields, "error") else None
  }

  /** The `.then((data) => ...)` branch chain of a form, for a body other than
      `null`. */
  function Dispatch(form: Form, data: Json): (o: Outcome)
    ensures o.Rendered? <==> TypeIs(data, SuccessTag(form))
    ensures o.Rendered? ==> o.data == data
    ensures o.ServerErrorAlert? <==> TypeIs(data, "error")
    ensures o.QuotaAlert? <==> TypeIs(data, "quota_error")
    ensures o.ServerErrorAlert? || o.QuotaAlert? ==> o.detail == ErrorField(data)
    ensures o.Alert? <==>
      !TypeIs(data, SuccessTag(form)) && !TypeIs(data, "error") && !TypeIs(data, "quota_error")
    ensures o.Alert? ==> o.message == UnexpectedMessage
  {
    if TypeIs(data, SuccessTag(form)) then Rendered(data)
    else if TypeIs(data, "error") then ServerErrorAlert(ErrorField(data))
    else if TypeIs(data, "quota_error") then QuotaAlert(ErrorField(data))
    else Alert(UnexpectedMessage)
  }

  /** The part both forms share: show the loader, POST with the token header,
      dispatch on the reply, hide the loader on the success and failure
      paths. Reading `data.type` of a `null` body throws and lands in
      `.catch`. A token that cannot be decoded throws while the request is
      being built: nothing is sent and the loader stays shown. */
  function SendAndHandle(form: Form, loaderPresent: bool, token: Cookies.TokenLookup, reply: Reply)
    : (s: Submission)
    ensures s.requestSent <==> !token.Malformed?
    ensures !loaderPresent ==> s.loader == NoLoader
    ensures loaderPresent ==> s.loader == (if s.requestSent then HiddenAgain else LeftShown)
    ensures s.outcome == Uncaught <==> !s.requestSent
    ensures s.requestSent && (reply.Failed? || reply == Replied(JNull)) ==>
      s.outcome == Alert(FailureMessage(form))
    ensures s.requestSent && reply.Replied? && reply.body != JNull ==>
      s.outcome == Dispatch(form, reply.body)
  {
    if token.Malformed? then
      Submission(false, Uncaught, if loaderPresent then LeftShown else NoLoader)
    else
      var loader := if loaderPresent then HiddenAgain else NoLoader;
      match reply
      case Failed => Submission(true, Alert(FailureMessage(form)), loader)
      case Replied(body) =>
        if body == JNull then Submission(true, Alert(FailureMessage(form)), loader)
        else Submission(true, Dispatch(form, body), loader)
  }

  /** The image form's submit handler. */
  function SubmitImageForm(loaderPresent: bool, token: Cookies.TokenLookup, reply: Reply): (s: Submission)
    ensures s.requestSent <==> !token.Malformed?
    ensures s.outcome.Rendered? ==> reply.Replied? && TypeIs(reply.body, "audio")
  {
    SendAndHandle(ImageForm, loaderPresent, token, reply)
  }

  /** The audio form's submit handler: with neither an uploaded file nor a
      recorded `<audio>` in the preview it warns and returns before anything
      else. */
  function SubmitAudioForm(hasFile: bool, hasRecording: bool, loaderPresent: bool,
                           token: Cookies.TokenLookup, reply: Reply): (s: Submission)
    ensures s.requestSent <==> (hasFile || hasRecording) && !token.Malformed?
    ensures !hasFile && !hasRecording ==>
      s.outcome == Alert(MissingInputMessage) && s.loader != LeftShown && s.loader != HiddenAgain
    ensures s.outcome.Rendered? ==> reply.Replied? && TypeIs(reply.body, "image")
  {
    if !hasFile && !hasRecording then
      Submission(false, Alert(MissingInputMessage), if loaderPresent then Untouched else NoLoader)
    else
      SendAndHandle(AudioForm, loaderPresent, token, reply)
  }

  /** Both forms hide their loader on every path once the request has been
      issued, whatever the reply. */
  lemma LoaderSettles(form: Form, hasFile: bool, hasRecording: bool, token: Cookies.TokenLookup, reply: Reply)
    ensures SubmitImageForm(true, token, reply).requestSent ==>
      SubmitImageForm(true, token, reply).loader == HiddenAgain
    ensures SubmitAudioForm(hasFile, hasRecording, true, token, reply).requestSent ==>
      SubmitAudioForm(hasFile, hasRecording, true, token, reply).loader == HiddenAgain
  {
  }

  /** The two forms treat every reply they do not render the same way. */
  lemma {:induction false} FormsAgreeOffSuccess(data: Json)
    requires !TypeIs(data, "image") && !TypeIs(data, "audio")
    ensures Dispatch(AudioForm, data) == Dispatch(ImageForm, data)
  {
    assert !TypeIs(data, SuccessTag(AudioForm)) && !TypeIs(data, SuccessTag(ImageForm));
  }

  /** A form shown the other form's kind of result treats it as unexpected. */
  lemma {:induction false} CrossedReplyIsUnexpected(fields: JsonObject)
    ensures Dispatch(AudioForm, JObj(fields["type" := JStr("audio")])) == Alert(UnexpectedMessage)
    ensures Dispatch(ImageForm, JObj(fields["type" := JStr("image")])) == Alert(UnexpectedMessage)
  {
    var a, i := JObj(fields["type" := JStr("audio")]), JObj(fields["type" := JStr("image")]);
    assert !TypeIs(a, "image") && !TypeIs(a, "error") && !TypeIs(a, "quota_error") by {
      assert a.fields["type"] == JStr("audio");
    }
    assert !TypeIs(i, "audio") && !TypeIs(i, "error") && !TypeIs(i, "quota_error") by {
      assert i.fields["type"] == JStr("image");
    }
  }

  // ---------------------------------------------------------------------
  // submitRecordedAudio

  /** `submitRecordedAudio(audioUrl)` as written. `blobRead` says whether
      fetching the recording's object URL and reading its blob succeeded;
      only those steps sit inside the `try`. Everything after them runs in
      the asynchronous `onloadend` callback, outside the `try`: a failure
      there escapes, the loader stays shown and the user is told nothing.
      Any reply other than an image is only logged. */
  function SubmitRecordingAsWritten(blobRead: bool, loaderPresent: bool,
                                    token: Cookies.TokenLookup, reply: Reply): (s: Submission)
    ensures !blobRead ==> !s.requestSent && s.outcome == Alert(RecordedFailureMessage)
    ensures s.requestSent <==> blobRead && !token.Malformed?
    ensures s.outcome.Rendered? <==> s.requestSent && reply.Replied? && TypeIs(reply.body, "image")
    ensures (blobRead && !token.Malformed? && reply.Replied? && reply.body != JNull &&
             !TypeIs(reply.body, "image")) ==> s.outcome == Logged
    ensures blobRead && !token.Malformed? && reply.Replied? && reply.body != JNull && loaderPresent ==>
      s.loader == HiddenAgain
    ensures blobRead && (token.Malformed? || reply.Failed? || reply == Replied(JNull)) ==>
      s.outcome == Uncaught && (loaderPresent ==> s.loader == LeftShown)
  {
    var shown := if loaderPresent then LeftShown else NoLoader;
    if !blobRead then
      Submission(false, Alert(RecordedFailureMessage), if loaderPresent then Untouched else NoLoader)
    else if token.Malformed? then
      Submission(false, Uncaught, shown)
    else
      match reply
      case Failed => Submission(true, Uncaught, shown)
      case Replied(body) =>
        if body == JNull then Submission(true, Uncaught, shown)
        else
          var outcome := if TypeIs(body, "image") then Rendered(body) else Logged;
          Submission(true, outcome, if loaderPresent then HiddenAgain else NoLoader)
  }

  /** Once the blob is read, every failure (a token lookup that throws, a
      POST that rejects, a body that parses to `null`) leaves the loader
      spinning with no message; the corrected handler reports each of them
      and hides the loader. */
  lemma {:induction false} RecordingFailureIsSilent(token: Cookies.TokenLookup, reply: Reply)
    requires token.Malformed? || reply.Failed? || reply == Replied(JNull)
    ensures SubmitRecordingAsWritten(true, true, token, reply) ==
      Submission(!token.Malformed?, Uncaught, LeftShown)
    ensures SubmitRecording(true, true, token, reply) ==
      Submission(!token.Malformed?, Alert(RecordedFailureMessage), HiddenAgain)
  {
  }

  /** `submitRecordedAudio` with the `onloadend` work inside a `try` of its
      own that reports failures the way the outer `catch` does: after the
      blob is read, the loader is hidden on every path and no failure goes
      unreported. */
  function SubmitRecording(blobRead: bool, loaderPresent: bool,
                           token: Cookies.TokenLookup, reply: Reply): (s: Submission)
    ensures s.requestSent <==> blobRead && !token.Malformed?
    ensures s.outcome != Uncaught
    ensures blobRead && loaderPresent ==> s.loader == HiddenAgain
    ensures blobRead && (token.Malformed? || reply.Failed? || reply == Replied(JNull)) ==>
      s.outcome == Alert(RecordedFailureMessage)
    ensures s.outcome.Rendered? <==> s.requestSent && reply.Replied? && TypeIs(reply.body, "image")
  {
    var settled := if loaderPresent then HiddenAgain else NoLoader;
    if !blobRead then
      Submission(false, Alert(RecordedFailureMessage), if loaderPresent then Untouched else NoLoader)
    else if token.Malformed? then
      Submission(false, Alert(RecordedFailureMessage), settled)
    else
      match reply
      case Failed => Submission(true, Alert(RecordedFailureMessage), settled)
      case Replied(body) =>
        if body == JNull then Submission(true, Alert(RecordedFailureMessage), settled)
        else Submission(true, if TypeIs(body, "image") then Rendered(body) else Logged, settled)
  }

  /** The correction changes only the failure paths: a blob that cannot be
      read is reported as before, and a reply that parses to something other
      than `null` is handled as before, whether a token was found or the
      header went out as `"null"`. */
  lemma {:induction false} SubmitRecordingAgreesOnReplies(loaderPresent: bool, token: Cookies.TokenLookup,
                                                          reply: Reply)
    ensures SubmitRecording(false, loaderPresent, token, reply) ==
      SubmitRecordingAsWritten(false, loaderPresent, token, reply)
    ensures !token.Malformed? && reply.Replied? && reply.body != JNull ==>
      SubmitRecording(true, loaderPresent, token, reply) ==
      SubmitRecordingAsWritten(true, loaderPresent, token, reply)
  {
  }

  // ---------------------------------------------------------------------
  // Metadata shown beside a result

  /** One `${data.key || "N/A"}`: the value when truthy, otherwise `N/A`. */
  datatype MetaText = NotAvailable | Shown(value: Json)

  function MetaValue(v: Option<Json>): (t: MetaText)
    ensures t == NotAvailable <==> !Truthy(v)
    ensures t.Shown? ==> v == Some(t.value)
  {
    if Truthy(v) then Shown(v.value) else NotAvailable
  }

  /** The fields `displayGeneratedImage` lists. */
  const ImageMetadataKeys: seq<string> := ["transcription", "image_description", "ai_model_used", "session_id"]

  /** The fields `displayGeneratedAudio` lists. */
  const AudioMetadataKeys: seq<string> := ["image_description", "voice_used", "ai_model_used", "session_id"]

  /** The metadata lines for the fields `keys` of a rendered body, in order. */
  function Metadata(keys: seq<string>, data: JsonObject): (lines: seq<MetaText>)
    ensures |lines| == |keys|
    ensures forall i :: 0 <= i < |keys| ==>
      (lines[i] == NotAvailable <==> !Truthy(Field(data, keys[i]))) &&
      (lines[i].Shown? ==> keys[i] in data && lines[i].value == data[keys[i]])
  {
    seq(|keys|, i requires 0 <= i < |keys| => MetaValue(Field(data, keys[i])))
  }

  /** A present but empty field reads as `N/A`, exactly like a missing one:
      the page cannot tell the two apart. */
  lemma {:induction false} EmptyFieldReadsAsMissing(keys: seq<string>, data: JsonObject, k: nat)
    requires k < |keys| && keys[k] !in data
    ensures Metadata(keys, data[keys[k] := JStr("")]) == Metadata(keys, data)
  {
    var d' := data[keys[k] := JStr("")];
    var l1, l2 := Metadata(keys, d'), Metadata(keys, data);
    forall i | 0 <= i < |keys| ensures l1[i] == l2[i] {
      if keys[i] == keys[k] {
        assert !Truthy(Field(d', keys[i])) && !Truthy(Field(data, keys[i]));
      } else {
        assert Field(d', keys[i]) == Field(data, keys[i]);
        assert l1[i] == MetaValue(Field(d', keys[i]));
        assert l2[i] == MetaValue(Field(data, keys[i]));
      }
    }
  }
}
