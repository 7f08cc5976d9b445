/** The Django views of app/views.py: `homepage` routes a request on which
    upload field it carries, and `audio_to_image` / `image_to_audio` answer
    with the base64 text of the converted file or with the exception text.
    The conversions and the file reads are one input each (their bytes, or
    the text of what they raised), base64 is the parameter `encode`, and
    rendering the page template is an input that may also raise. */
module Views {
  import opened Values

  /** A Django response: the rendered page, or a `JsonResponse` of a dict of
      strings. */
  datatype Response = Page(status: int) | JsonReply(body: map<string, string>, status: int)

  /** What `homepage` reads of a request: `request.method` (`verb`) and the field
      names of `request.FILES`, whose parsing may raise. */
  datatype Request = Request(verb: string, files: Result<set<string>>)

  /** A conversion followed by reading back the file it wrote: the bytes, or
      the text of the exception raised on the way. */
  type Conversion = Result<seq<Byte>>

  const NoFileMessage: string := "No file provided"

  /** `JsonResponse({'error': str(e)}, status=...)`. */
  function ErrorReply(message: string, status: int): (r: Response)
    ensures r.JsonReply? && r.status == status
    ensures r.body.Keys == {"error"} && r.body["error"] == message
  {
    JsonReply(map["error" := message], status)
  }

  /** A successful conversion: the result's kind under `type` and its
      base64 text under the key of the same name. */
  function SuccessReply(kind: string, data: seq<Byte>, encode: seq<Byte> -> string): (r: Response)
    requires kind == "image" || kind == "audio"
    ensures r.JsonReply? && r.status == 200
    ensures r.body.Keys == {"type", kind} && r.body["type"] == kind && r.body[kind] == encode(data)
  {
    JsonReply(map["type" := kind, kind := encode(data)], 200)
  }

  /** `audio_to_image(request)`. */
  function AudioToImage(conversion: Conversion, encode: seq<Byte> -> string): (r: Response)
    ensures r.JsonReply?
    ensures r.status == 200 <==> conversion.Ok?
    ensures conversion.Ok? ==> r == SuccessReply("image", conversion.value, encode)
    ensures conversion.Err? ==> r == ErrorReply(conversion.message, 500)
  {
    match conversion
    case Ok(png) => SuccessReply("image", png, encode)
    case Err(e) => ErrorReply(e, 500)
  }

  /** `image_to_audio(request)`. */
  function ImageToAudio(conversion: Conversion, encode: seq<Byte> -> string): (r: Response)
    ensures r.JsonReply?
    ensures r.status == 200 <==> conversion.Ok?
    ensures conversion.Ok? ==> r == SuccessReply("audio", conversion.value, encode)
    ensures conversion.Err? ==> r == ErrorReply(conversion.message, 500)
  {
    match conversion
    case Ok(wav) => SuccessReply("audio", wav, encode)
    case Err(e) => ErrorReply(e, 500)
  }

  /** `homepage(request)`. `render` is how rendering `index.html` goes;
      `audio` and `image` are how the two conversions would go. */
  function Homepage(req: Request, render: Result<()>, audio: Conversion, image: Conversion,
                    encode: seq<Byte> -> string): (r: Response)
    // routing
    ensures req.verb != "POST" && render.Ok? ==> r == Page(200)
    ensures req.verb != "POST" && render.Err? ==> r == ErrorReply(render.message, 500)
    ensures req.verb == "POST" && req.files.Err? ==> r == ErrorReply(req.files.message, 500)
    ensures req.verb == "POST" && req.files.Ok? && "audio_file" in req.files.value ==>
      r == AudioToImage(audio, encode)
    ensures (req.verb == "POST" && req.files.Ok? && "audio_file" !in req.files.value &&
             "image_file" in req.files.value) ==> r == ImageToAudio(image, encode)
    ensures (req.verb == "POST" && req.files.Ok? && "audio_file" !in req.files.value &&
             "image_file" !in req.files.value) ==> r == ErrorReply(NoFileMessage, 400)
    // the shapes every answer has
    ensures r.status == 200 || r.status == 400 || r.status == 500
    ensures r.status == 200 ==> r.Page? || r.body["type"] == "image" || r.body["type"] == "audio"
    ensures r.JsonReply? && r.status != 200 ==> r.body.Keys == {"error"}
  {
    if req.verb == "POST" then
      match req.files
      case Err(e) => ErrorReply(e, 500)
      case Ok(files) =>
        if "audio_file" in files then AudioToImage(audio, encode)
        else if "image_file" in files then ImageToAudio(image, encode)
        else ErrorReply(NoFileMessage, 400)
    else
      match render
      case Ok(_) => Page(200)
      case Err(e) => ErrorReply(e, 500)
  }

  /** A request carrying both uploads is an audio request: the image is
      never looked at. */
  lemma {:induction false} AudioUploadWins(files: set<string>, render: Result<()>, audio: Conversion,
                                           image: Conversion, image': Conversion, encode: seq<Byte> -> string)
    requires "audio_file" in files && "image_file" in files
    ensures Homepage(Request("POST", Ok(files)), render, audio, image, encode) ==
      Homepage(Request("POST", Ok(files)), render, audio, image', encode)
    ensures Homepage(Request("POST", Ok(files)), render, audio, image, encode).status == 200 <==> audio.Ok?
  {
    assert Homepage(Request("POST", Ok(files)), render, audio, image, encode) == AudioToImage(audio, encode);
  }
}
