/** The speech service: the upload check of speech-to-text, the input check of
    text-to-speech, and how every failure of either reaches the client.

    The speech model, the synthesiser and file handling are outside the model:
    each is an `Outcome` given as a parameter. */
module SpeechBackend {
  import opened Text

  /** A handler's answer: a body, or an HTTP error with its `detail` text. */
  datatype Reply<T> = Ok(body: T) | HttpError(status: nat, detail: string)

  /** What a library step gives: a value, or an exception with its text. */
  datatype Outcome<T> = Done(value: T) | Raised(message: string)

  /** The text of an HTTP exception, `str(e)`: the status, a colon and the detail. */
  function ExceptionText(status: nat, detail: string): string
  {
    NatToString(status) + ": " + detail
  }

  // ---------------------------------------------------------------- speech to text

  const AllowedExtensions: seq<string> := [".mp3", ".wav", ".m4a", ".ogg", ".flac", ".mp4", ".avi", ".mov"]

  const BadFormatDetail: string :=
    "File must have a " + "valid audio/video " + "extension (.mp3, " + ".wav, .m4a, .ogg, " + ".flac, .mp4, .avi, " + ".mov)"

  const TranscribePrefix: string := "Error transcribing audio: "

  /** The file name, lowered, ends with one of the allowed extensions. */
  predicate HasAllowedExtension(name: string)
  {
    exists i :: 0 <= i < |AllowedExtensions| && EndsWith(Lower(name), AllowedExtensions[i])
  }

  /** An upload passes the check when it has a non-empty name with an allowed extension. */
  predicate AcceptedUpload(filename: Option<string>)
  {
    filename.Some? && filename.value != "" && HasAllowedExtension(filename.value)
  }

  /** The `/speech-to-text` handler. `transcribe` is what reading the upload and
      running the speech model give: the raw text, or the exception raised. The
      check's own 400 is raised inside the same `try` as the model call, so the
      blanket handler turns it into a 500 as well. */
  function SpeechToText(filename: Option<string>, transcribe: Outcome<string>): Reply<string>
  {
    var attempt :=
      if !AcceptedUpload(filename) then Raised(ExceptionText(400, BadFormatDetail))
      else match transcribe
        case Done(raw) => Done(TrimBy(PySpace, raw))
        case Raised(m) => Raised(m);
    match attempt
    case Done(t) => Ok(t)
    case Raised(m) => HttpError(500, TranscribePrefix + m)
  }

  /** The handler answers with a transcription exactly when the upload passes
      the check and the model gives text; the transcription is that text with
      the white space at either end removed. Every failure, the rejected
      upload included, is a 500 whose detail starts with the handler's prefix. */
  lemma SpeechToTextReplies(filename: Option<string>, transcribe: Outcome<string>)
    ensures SpeechToText(filename, transcribe).Ok? <==> AcceptedUpload(filename) && transcribe.Done?
    ensures SpeechToText(filename, transcribe).Ok? ==>
      var t := SpeechToText(filename, transcribe).body;
      t == TrimBy(PySpace, transcribe.value) && (t != [] ==> !IsPySpace(t[0]) && !IsPySpace(t[|t| - 1]))
    ensures SpeechToText(filename, transcribe).HttpError? ==>
      SpeechToText(filename, transcribe).status == 500
      && SpeechToText(filename, transcribe).detail[..|TranscribePrefix|] == TranscribePrefix
  {
    if transcribe.Done? && AcceptedUpload(filename) {
      TrimShape(PySpace, transcribe.value);
    }
  }

  /** The statuses the handlers and their client mention, written out. */
  lemma StatusTexts()
    ensures NatToString(400) == "400" && NatToString(422) == "422" && NatToString(500) == "500"
  {
    assert NatToString(40) == NatToString(4) + "0";
    assert NatToString(42) == NatToString(4) + "2";
    assert NatToString(50) == NatToString(5) + "0";
  }

  /** The rejection's detail holds no digit 2. */
  lemma DetailWithoutTwo()
    ensures '2' !in BadFormatDetail
  {
    assert '2' !in "File must have a ";
    assert '2' !in "valid audio/video ";
    assert '2' !in "extension (.mp3, ";
    assert '2' !in ".wav, .m4a, .ogg, ";
    assert '2' !in ".flac, .mp4, .avi, ";
    assert '2' !in ".mov)";
  }

  /** A rejected upload reaches the client as a 500 that carries the check's
      own status and detail inside its text. */
  lemma RejectedUploadReply(filename: Option<string>, transcribe: Outcome<string>)
    requires !AcceptedUpload(filename)
    ensures SpeechToText(filename, transcribe) == HttpError(500, TranscribePrefix + "400: " + BadFormatDetail)
  {
    StatusTexts();
  }

  /** The check does not look at letter case: a name is accepted exactly when its
      lowered form is. */
  lemma AcceptedIgnoresCase(name: string)
    ensures AcceptedUpload(Some(name)) <==> AcceptedUpload(Some(Lower(name)))
  {
    assert Lower(Lower(name)) == Lower(name);
  }

  /** What the check makes of the file names the recorder uploads: every one is
      accepted except the WebM recording. */
  lemma RecorderUploadNames()
    ensures AcceptedUpload(Some("recording.mp4"))
    ensures AcceptedUpload(Some("recording.wav"))
    ensures AcceptedUpload(Some("recording.ogg"))
    ensures !AcceptedUpload(Some("recording.webm"))
  {
    assert EndsWith(Lower("recording.mp4"), AllowedExtensions[5]);
    assert EndsWith(Lower("recording.wav"), AllowedExtensions[1]);
    assert EndsWith(Lower("recording.ogg"), AllowedExtensions[3]);
    var lw := Lower("recording.webm");
    forall i | 0 <= i < |AllowedExtensions|
      ensures !EndsWith(lw, AllowedExtensions[i])
    {
      assert lw[|lw| - 1] == 'm' && lw[|lw| - 2] == 'b';
    }
  }

  // ---------------------------------------------------------------- text to speech

  /** A text-to-speech request; a missing `language` is filled in by the
      request's default. */
  datatype SpeechRequest = SpeechRequest(text: string, language: Option<string>)

  /** The spoken file the handler answers with. */
  datatype SpeechFile = SpeechFile(text: string, language: string, mediaType: string, filename: string)

  const DefaultLanguage: string := "en"

  const SpeechPrefix: string := "Error generating speech: "

  function RequestLanguage(req: SpeechRequest): (lang: string)
    ensures req.language.None? ==> lang == DefaultLanguage
    ensures req.language.Some? ==> lang == req.language.value
  {
    match req.language
    case Some(l) => l
    case None => DefaultLanguage
  }

  /** The `/text-to-speech` handler. `synthesise` is what the synthesiser and the
      file write give. */
  function TextToSpeech(req: SpeechRequest, synthesise: Outcome<()>): Reply<SpeechFile>
  {
    var attempt :=
      if TrimBy(PySpace, req.text) == "" then Raised(ExceptionText(400, "Text cannot be empty"))
      else synthesise;
    match attempt
    case Done(_) => Ok(SpeechFile(req.text, RequestLanguage(req), "audio/mpeg", "speech.mp3"))
    case Raised(m) => HttpError(500, SpeechPrefix + m)
  }

  /** Speech is produced exactly when the text has something besides white space
      and the synthesiser succeeds; it speaks the text as sent, in the requested
      language or English. A blank text, like any other failure, is a 500. */
  lemma TextToSpeechReplies(req: SpeechRequest, synthesise: Outcome<()>)
    ensures TextToSpeech(req, synthesise).Ok? <==>
      (exists k :: 0 <= k < |req.text| && !IsPySpace(req.text[k])) && synthesise.Done?
    ensures TextToSpeech(req, synthesise).Ok? ==>
      TextToSpeech(req, synthesise).body == SpeechFile(req.text, RequestLanguage(req), "audio/mpeg", "speech.mp3")
    ensures TextToSpeech(req, synthesise).HttpError? ==>
      TextToSpeech(req, synthesise).status == 500
      && TextToSpeech(req, synthesise).detail[..|SpeechPrefix|] == SpeechPrefix
  {
    var s := req.text;
    TrimShape(PySpace, s);
    var i := |s| - |TrimStart(PySpace, s)|;
    if TrimBy(PySpace, s) == "" {
      forall k | 0 <= k < |s|
        ensures IsPySpace(s[k])
      {
        assert k < i || i <= k;
      }
    } else {
      assert !IsPySpace(s[i]);
    }
  }
}
