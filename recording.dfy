/** The microphone recording of static/js/index.js: the module-level
    `isRecording` flag, the `mediaRecorder` and the `audioChunks` buffer, the
    `toggleRecording` button handler and the recorder's `dataavailable`,
    `stop` and `error` handlers. Browser APIs are inputs: each way a start can
    fail is a `StartAttempt`, and each recorder event is a method call. */
module Recording {
  import opened Values

  /** The `Blob` of one `dataavailable` event; its `size` is its length. */
  type Chunk = seq<Byte>

  /** A `Blob` assembled from chunks, with its MIME type. */
  datatype Blob = Blob(content: seq<Byte>, mimeType: string)

  /** `mediaRecorder.state`, as far as the script looks at it. */
  datatype RecorderState = Inactive | Active

  /** A thrown error: its `name` and `message`. */
  datatype JsError = JsError(name: string, message: string)

  /** How the start branch of `toggleRecording` ends: the capability check
      fails, `getUserMedia` rejects, `new MediaRecorder` throws,
      `mediaRecorder.start` throws, or recording starts. */
  datatype StartAttempt =
    | Unsupported
    | StreamRefused(err: JsError)
    | RecorderRefused(err: JsError)
    | StartRefused(err: JsError)
    | Started

  const UnsupportedMessage: string := "Audio recording is not supported in this browser"
  const RecordingMessage: string := "Recording... Speak now!"
  const StoppedMessage: string := "Recording stopped"
  const NoAudioMessage: string := "Error: No audio data recorded"
  const CompletedMessage: string := "Recording completed successfully!"
  const RecorderFailedMessage: string := "Error: Recording failed"
  const DeniedMessage: string := "Error: Microphone access denied. Please allow microphone access and try again."
  const NoDeviceMessage: string := "Error: No microphone found. Please connect a microphone and try again."
  const BlobType: string := "audio/webm"

  /** The status line the `catch` block shows for a failed start. */
  function StartErrorStatus(err: JsError): (text: string)
    ensures err.name == "NotAllowedError" ==> text == DeniedMessage
    ensures err.name == "NotFoundError" ==> text == NoDeviceMessage
    ensures err.name != "NotAllowedError" && err.name != "NotFoundError" ==>
      text == "Error: " + err.message
  {
    if err.name == "NotAllowedError" then DeniedMessage
    else if err.name == "NotFoundError" then NoDeviceMessage
    else "Error: " + err.message
  }

  /** The error a start attempt threw, if it threw one. */
  function StartError(a: StartAttempt): (e: Option<JsError>)
    ensures e.None? <==> a.Started?
  {
    match a
    case Unsupported => Some(JsError("Error", UnsupportedMessage))
    case StreamRefused(err) => Some(err)
    case RecorderRefused(err) => Some(err)
    case StartRefused(err) => Some(err)
    case Started => None
  }

  /** The bytes of `new Blob(chunks)`: the chunks one after the other. */
  function Concat(chunks: seq<Chunk>): seq<Byte> {
    if chunks == [] then [] else Concat(chunks[..|chunks| - 1]) + chunks[|chunks| - 1]
  }

  /** The chunks whose size is positive, in their order. */
  function NonEmpty(chunks: seq<Chunk>): (r: seq<Chunk>)
    ensures |r| <= |chunks|
    ensures forall i :: 0 <= i < |r| ==> |r[i]| > 0
  {
    if chunks == [] then []
    else
      var last := chunks[|chunks| - 1];
      NonEmpty(chunks[..|chunks| - 1]) + (if |last| > 0 then [last] else [])
  }

  /** Appending a chunk appends its bytes. */
  lemma {:induction false} ConcatAppend(chunks: seq<Chunk>, c: Chunk)
    ensures Concat(chunks + [c]) == Concat(chunks) + c
  {
    assert (chunks + [c])[..|chunks|] == chunks;
  }

  /** Leaving out empty chunks does not change the bytes: the blob holds
      every byte the recorder delivered, in order. */
  lemma {:induction false} NonEmptyKeepsBytes(chunks: seq<Chunk>)
    ensures Concat(NonEmpty(chunks)) == Concat(chunks)
  {
    if chunks != [] {
      var init, last := chunks[..|chunks| - 1], chunks[|chunks| - 1];
      NonEmptyKeepsBytes(init);
      assert init + [last] == chunks;
      ConcatAppend(init, last);
      if |last| > 0 {
        ConcatAppend(NonEmpty(init), last);
      } else {
        assert NonEmpty(chunks) == NonEmpty(init);
      }
    }
  }

  /** Feeding one more event to the filter. */
  lemma NonEmptyAppend(chunks: seq<Chunk>, c: Chunk)
    ensures NonEmpty(chunks + [c]) == NonEmpty(chunks) + (if |c| > 0 then [c] else [])
  {
    assert (chunks + [c])[..|chunks|] == chunks;
  }

  /** The recording state of the page. */
  class RecordingSession {
    /** `isRecording` */
    var isRecording: bool
    /** `mediaRecorder`: `undefined` until a start attempt creates one. */
    var recorder: Option<RecorderState>
    /** `audioChunks` */
    var audioChunks: seq<Chunk>
    /** The text of `#recordingStatus`. */
    var status: string
    /** The `<audio>` element under `#recordingPreview`, with its blob. */
    var preview: Option<Blob>

    /** While the flag is set there is a recorder, an active recorder means
        the flag is set, and the buffer holds only non-empty chunks. */
    ghost predicate Valid()
      reads this
    {
      (isRecording ==> recorder.Some?) &&
      (recorder == Some(Active) ==> isRecording) &&
      forall i :: 0 <= i < |audioChunks| ==> |audioChunks[i]| > 0
    }

    /** The state when the script is loaded; `initialStatus` is what the
        page markup shows. */
    constructor (initialStatus: string)
      ensures Valid()
      ensures !isRecording && recorder.None? && audioChunks == []
      ensures status == initialStatus && preview.None?
    {
      isRecording := false;
      recorder := None;
      audioChunks := [];
      status := initialStatus;
      preview := None;
    }

    /** `toggleRecording()`. When not recording, `attempt` says how the start
        goes; when recording, it is not consulted. `stopCalled` says whether
        `mediaRecorder.stop()` was called. */
    method Toggle(attempt: StartAttempt) returns (stopCalled: bool)
      requires Valid()
      modifies this
      ensures Valid()
      ensures preview == old(preview)
      // the flag is set exactly by a successful start and cleared by every stop
      ensures isRecording <==> !old(isRecording) && attempt.Started?
      // starting
      ensures !old(isRecording) ==> !stopCalled
      ensures !old(isRecording) && attempt.Started? ==>
        recorder == Some(Active) && audioChunks == [] && status == RecordingMessage
      ensures !old(isRecording) && attempt.StartRefused? ==>
        recorder == Some(Inactive) && audioChunks == [] && status == StartErrorStatus(attempt.err)
      ensures !old(isRecording) && (attempt.Unsupported? || attempt.StreamRefused? || attempt.RecorderRefused?) ==>
        recorder == old(recorder) && audioChunks == old(audioChunks) &&
        status == StartErrorStatus(StartError(attempt).value)
      // stopping
      ensures old(isRecording) ==> stopCalled == (old(recorder) == Some(Active))
      ensures old(isRecording) ==>
        recorder == Some(Inactive) && audioChunks == old(audioChunks) && status == StoppedMessage
    {
      stopCalled := false;
      if !isRecording {
        match attempt
        case Unsupported =>
          status := StartErrorStatus(JsError("Error", UnsupportedMessage));
        case StreamRefused(err) =>
          status := StartErrorStatus(err);
        case RecorderRefused(err) =>
          status := StartErrorStatus(err);
        case StartRefused(err) =>
          recorder := Some(Inactive);
          audioChunks := [];
          status := StartErrorStatus(err);
        case Started =>
          recorder := Some(Active);
          audioChunks := [];
          isRecording := true;
          status := RecordingMessage;
      } else {
        if recorder.Some? && recorder.value != Inactive {
          recorder := Some(Inactive);
          stopCalled := true;
        }
        isRecording := false;
        status := StoppedMessage;
      }
    }

    /** The recorder's `dataavailable` handler, installed once a recorder
        exists: only a chunk of positive size is kept. */
    method OnDataAvailable(chunk: Chunk)
      requires Valid() && recorder.Some?
      modifies this`audioChunks
      ensures Valid()
      ensures audioChunks == old(audioChunks) + (if |chunk| > 0 then [chunk] else [])
    {
      if |chunk| > 0 {
        audioChunks := audioChunks + [chunk];
      }
    }

    /** The recorder's `stop` handler: an empty buffer is an error and leaves
        the preview as it was; otherwise the chunks become one `audio/webm`
        blob shown in the preview. The buffer is not cleared. */
    method OnStop()
      requires Valid() && recorder.Some?
      modifies this`status, this`preview
      ensures Valid()
      ensures audioChunks == [] ==> status == NoAudioMessage && preview == old(preview)
      ensures audioChunks != [] ==>
        status == CompletedMessage && preview == Some(Blob(Concat(audioChunks), BlobType))
    {
      if |audioChunks| == 0 {
        status := NoAudioMessage;
        return;
      }
      preview := Some(Blob(Concat(audioChunks), BlobType));
      status := CompletedMessage;
    }

    /** The recorder's `error` handler. */
    method OnError()
      requires Valid() && recorder.Some?
      modifies this`status
      ensures Valid() && status == RecorderFailedMessage
    {
      status := RecorderFailedMessage;
    }

    /** The browser ends the recording by itself (the track ends, or after an
        error): the recorder becomes inactive while the flag stays set. */
    method Halt()
      requires Valid() && recorder.Some?
      modifies this`recorder
      ensures Valid() && recorder == Some(Inactive)
    {
      recorder := Some(Inactive);
    }
  }

  /** A fresh page whose first button press starts a recording. */
  method StartFresh() returns (page: RecordingSession)
    ensures fresh(page) && page.Valid()
    ensures page.isRecording && page.recorder == Some(Active)
    ensures page.audioChunks == [] && page.preview.None?
  {
    page := new RecordingSession("");
    var stopCalled := page.Toggle(Started);
  }

  /** The recorder delivers `events`, one `dataavailable` event each, to a
      page that has just started recording: the buffer ends up holding the
      non-empty ones, in order. */
  method Deliver(page: RecordingSession, events: seq<Chunk>)
    requires page.Valid() && page.recorder.Some? && page.audioChunks == []
    modifies page`audioChunks
    ensures page.Valid() && page.audioChunks == NonEmpty(events)
  {
    var i := 0;
    while i < |events|
      invariant 0 <= i <= |events|
      invariant page.Valid()
      invariant page.audioChunks == NonEmpty(events[..i])
    {
      NonEmptyAppend(events[..i], events[i]);
      assert events[..i + 1] == events[..i] + [events[i]];
      page.OnDataAvailable(events[i]);
      i := i + 1;
    }
    assert events[..i] == events;
  }

  /** A whole session on a fresh page: start, receive `events` from the
      recorder, press the button again, and receive the `stop` event. The
      preview holds exactly the bytes delivered, in order, unless every event
      was empty, in which case the page reports that no audio was recorded. */
  method RecordOnce(events: seq<Chunk>) returns (preview: Option<Blob>, status: string)
    ensures Concat(events) == [] ==> preview.None? && status == NoAudioMessage
    ensures Concat(events) != [] ==>
      preview == Some(Blob(Concat(events), BlobType)) && status == CompletedMessage
  {
    var page := StartFresh();
    Deliver(page, events);
    var stopCalled := page.Toggle(Started);
    SessionBytes(events);
    page.OnStop();
    preview, status := page.preview, page.status;
  }

  /** What the stop handler sees of a session: the kept chunks carry all the
      bytes, and there are none exactly when no byte arrived. */
  lemma SessionBytes(events: seq<Chunk>)
    ensures Concat(NonEmpty(events)) == Concat(events)
    ensures NonEmpty(events) == [] <==> Concat(events) == []
  {
    NonEmptyKeepsBytes(events);
    EmptyConcat(NonEmpty(events));
  }

  /** Non-empty chunks concatenate to nothing only when there are none. */
  lemma {:induction false} EmptyConcat(chunks: seq<Chunk>)
    requires forall i :: 0 <= i < |chunks| ==> |chunks[i]| > 0
    ensures Concat(chunks) == [] <==> chunks == []
  {
    if chunks != [] {
      var init := chunks[..|chunks| - 1];
      assert |Concat(chunks)| >= |chunks[|chunks| - 1]|;
    }
  }
}
