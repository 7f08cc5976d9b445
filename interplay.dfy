/** The client script and the server views together: the JSON a view sends
    is what the script's handlers dispatch on. The script never looks at the
    HTTP status; it parses the body and reads `type`. */
module Interplay {
  import opened Values
  import Cookies
  import Views
  import Client

  /** A `JsonResponse` dict of strings as `response.json()` parses it. */
  function AsJson(body: map<string, string>): (j: Json)
    ensures j.JObj? && j.fields.Keys == body.Keys
    ensures forall k :: k in body ==> j.fields[k] == JStr(body[k])
  {
    JObj(map k | k in body :: JStr(body[k]))
  }

  /** What `fetch` and `response.json()` make of a response: the HTML page
      is not JSON, so parsing it rejects. */
  function Received(r: Views.Response): (reply: Client.Reply)
    ensures r.Page? <==> reply.Failed?
    ensures r.JsonReply? ==> reply == Client.Replied(AsJson(r.body))
  {
    match r
    case Page(_) => Client.Failed
    case JsonReply(body, _) => Client.Replied(AsJson(body))
  }

  /** The server's error answers carry no `type`, so neither form ever takes
      its `"error"` or `"quota_error"` branch for them: every 400 and 500
      shows the generic alert, and the server's message is not shown. */
  lemma {:induction false} ServerErrorsLookUnexpected(form: Client.Form, req: Views.Request, render: Result<()>,
                                                      audio: Views.Conversion, image: Views.Conversion,
                                                      encode: seq<Byte> -> string)
    ensures var r := Views.Homepage(req, render, audio, image, encode);
      r.JsonReply? && r.status != 200 ==>
        Client.Dispatch(form, AsJson(r.body)) == Client.Alert(Client.UnexpectedMessage)
  {
    var r := Views.Homepage(req, render, audio, image, encode);
    if r.JsonReply? && r.status != 200 {
      var j := AsJson(r.body);
      assert "type" !in j.fields;
      assert !Client.TypeIs(j, Client.SuccessTag(form));
    }
  }

  /** An upload in the audio form that the server converts is rendered by
      the audio form. */
  lemma {:induction false} AudioUploadRenders(files: set<string>, render: Result<()>, png: seq<Byte>,
                                              image: Views.Conversion, encode: seq<Byte> -> string,
                                              hasRecording: bool, loaderPresent: bool, token: Cookies.TokenLookup)
    requires "audio_file" in files && !token.Malformed?
    ensures var r := Views.Homepage(Views.Request("POST", Ok(files)), render, Ok(png), image, encode);
      Client.SubmitAudioForm(true, hasRecording, loaderPresent, token, Received(r)).outcome.Rendered?
  {
    var r := Views.Homepage(Views.Request("POST", Ok(files)), render, Ok(png), image, encode);
    assert r == Views.SuccessReply("image", png, encode);
    assert Client.TypeIs(AsJson(r.body), "image");
  }

  /** An upload in the image form that the server converts is rendered by
      the image form. */
  lemma {:induction false} ImageUploadRenders(files: set<string>, render: Result<()>, wav: seq<Byte>,
                                              audio: Views.Conversion, encode: seq<Byte> -> string,
                                              loaderPresent: bool, token: Cookies.TokenLookup)
    requires "image_file" in files && "audio_file" !in files && !token.Malformed?
    ensures var r := Views.Homepage(Views.Request("POST", Ok(files)), render, audio, Ok(wav), encode);
      Client.SubmitImageForm(loaderPresent, token, Received(r)).outcome.Rendered?
  {
    var r := Views.Homepage(Views.Request("POST", Ok(files)), render, audio, Ok(wav), encode);
    assert r == Views.SuccessReply("audio", wav, encode);
    assert Client.TypeIs(AsJson(r.body), "audio");
  }

  /** `submitRecordedAudio` posts the recording as the plain form field
      `recorded_audio`, not as a file, so `request.FILES` is empty and
      `homepage` answers 400. The script only logs that answer: a recording
      submitted this way is never converted, and the user is not told. */
  lemma {:induction false} RecordedAudioIsRefused(render: Result<()>, audio: Views.Conversion, image: Views.Conversion,
                                                  encode: seq<Byte> -> string, loaderPresent: bool, token: Cookies.TokenLookup)
    requires !token.Malformed?
    ensures var r := Views.Homepage(Views.Request("POST", Ok({})), render, audio, image, encode);
      r == Views.ErrorReply(Views.NoFileMessage, 400) &&
      Client.SubmitRecordingAsWritten(true, loaderPresent, token, Received(r)).outcome == Client.Logged &&
      Client.SubmitRecording(true, loaderPresent, token, Received(r)).outcome == Client.Logged
  {
    var r := Views.Homepage(Views.Request("POST", Ok({})), render, audio, image, encode);
    assert !Client.TypeIs(AsJson(r.body), "image") by {
      assert "type" !in AsJson(r.body).fields;
    }
  }
}
