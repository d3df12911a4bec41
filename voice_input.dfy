/** The voice input component: the recorder and its state, the format a
    recording is sent in, how the speech service's answer or failure becomes a
    transcript or an error message, and the cleanup of the generative reader's
    answer, with the pattern reader as its fallback.

    The browser's recorder, the network and `JSON.parse` are outside the model:
    what they give is passed in. */
module VoiceInput {
  import opened Text
  import opened Json
  import opened TranscriptFields
  import SpeechBackend

  // ---------------------------------------------------------------- recording format

  /** The formats the recorder asks for, most preferred first, each with the
      extension it notes for it. */
  const PreferredFormats: seq<(string, string)> :=
    [("audio/mp4", ".mp4"), ("audio/wav", ".wav"), ("audio/ogg", ".ogg"), ("audio/webm", ".webm")]

  /** The format used when the browser supports none of the preferred ones. */
  const FallbackFormat: (string, string) := ("audio/webm;codecs=opus", ".webm")

  /** The MIME type and extension recording starts with, given the types the
      browser's recorder supports. */
  function SelectMimeType(supported: set<string>): (string, string)
  {
    if "audio/mp4" in supported then ("audio/mp4", ".mp4")
    else if "audio/wav" in supported then ("audio/wav", ".wav")
    else if "audio/ogg" in supported then ("audio/ogg", ".ogg")
    else if "audio/webm" in supported then ("audio/webm", ".webm")
    else FallbackFormat
  }

  /** The recorder takes the first preferred format the browser supports, and
      the fallback only when it supports none of them. */
  lemma SelectMimeTypePreference(supported: set<string>)
    ensures SelectMimeType(supported) == FallbackFormat <==>
      forall i :: 0 <= i < |PreferredFormats| ==> PreferredFormats[i].0 !in supported
    ensures SelectMimeType(supported) != FallbackFormat ==>
      exists i :: 0 <= i < |PreferredFormats| && SelectMimeType(supported) == PreferredFormats[i]
        && PreferredFormats[i].0 in supported
        && forall j :: 0 <= j < i ==> PreferredFormats[j].0 !in supported
  {
    if "audio/mp4" in supported {
      assert SelectMimeType(supported) == PreferredFormats[0];
    } else if "audio/wav" in supported {
      assert SelectMimeType(supported) == PreferredFormats[1];
    } else if "audio/ogg" in supported {
      assert SelectMimeType(supported) == PreferredFormats[2];
    } else if "audio/webm" in supported {
      assert SelectMimeType(supported) == PreferredFormats[3];
    }
  }

  /** The file name and content type a recording is uploaded with, from the
      type of its first chunk. */
  function UploadFormat(chunkType: string): (string, string)
  {
    var t := Lower(chunkType);
    if Contains(t, "mp4") then ("recording.mp4", "audio/mp4")
    else if Contains(t, "wav") then ("recording.wav", "audio/wav")
    else if Contains(t, "ogg") then ("recording.ogg", "audio/ogg")
    else if Contains(t, "webm") then ("recording.webm", "audio/webm")
    else ("recording.wav", "audio/wav")
  }

  /** The speech service accepts the upload exactly unless the chunk type names
      WebM and none of the other formats. */
  lemma UploadFormatAccepted(chunkType: string)
    ensures var t := Lower(chunkType);
      SpeechBackend.AcceptedUpload(Some(UploadFormat(chunkType).0)) <==>
        Contains(t, "mp4") || Contains(t, "wav") || Contains(t, "ogg") || !Contains(t, "webm")
  {
    SpeechBackend.RecorderUploadNames();
  }

  /** Lowering leaves a text without capital letters as it is. */
  lemma LowerWithoutCapitals(s: string)
    requires forall i :: 0 <= i < |s| ==> !('A' <= s[i] <= 'Z')
    ensures Lower(s) == s
  {
  }

  lemma UploadOfMp4()
    ensures UploadFormat("audio/mp4").0 == "recording.mp4"
  {
    LowerWithoutCapitals("audio/mp4");
    assert OccursAt("audio/mp4", "mp4", 6);
  }

  lemma UploadOfWav()
    ensures UploadFormat("audio/wav").0 == "recording.wav"
  {
    var t := "audio/wav";
    LowerWithoutCapitals(t);
    NotContainsMissing(t, "mp4", 1);
    assert OccursAt(t, "wav", 6);
  }

  lemma UploadOfOgg()
    ensures UploadFormat("audio/ogg").0 == "recording.ogg"
  {
    var t := "audio/ogg";
    LowerWithoutCapitals(t);
    NotContainsMissing(t, "mp4", 1);
    NotContainsMissing(t, "wav", 0);
    assert OccursAt(t, "ogg", 6);
  }

  lemma UploadOfWebm(t: string)
    requires t == "audio/webm" || t == FallbackFormat.0
    ensures UploadFormat(t).0 == "recording.webm"
  {
    LowerWithoutCapitals(t);
    NotContainsMissing(t, "mp4", 2);
    NotContainsMissing(t, "wav", 2);
    NotContainsMissing(t, "ogg", 1);
    assert OccursAt(t, "webm", 6);
  }

  /** A recording's chunks have the recorder's MIME type, and the upload name
      then ends in the extension chosen with that type. */
  lemma RecordedFormatUploadName(supported: set<string>)
    ensures UploadFormat(SelectMimeType(supported).0).0 == "recording" + SelectMimeType(supported).1
  {
    var mime := SelectMimeType(supported).0;
    if mime == "audio/mp4" {
      UploadOfMp4();
    } else if mime == "audio/wav" {
      UploadOfWav();
    } else if mime == "audio/ogg" {
      UploadOfOgg();
    } else {
      UploadOfWebm(mime);
    }
  }

  // ---------------------------------------------------------------- failures and messages

  /** What was thrown: a `TypeError`, another `Error`, or a value that is not an `Error`. */
  datatype ErrorKind = TypeError | OtherError | NotAnError

  datatype Failure = Failure(kind: ErrorKind, message: string)

  const DefaultServiceUrl: string := "http://localhost:8080"

  /** The speech service's address: the configured one, unless it is missing or empty. */
  function ServiceUrl(configured: Option<string>): (url: string)
    ensures url == DefaultServiceUrl <==> configured.None? || configured.value in {"", DefaultServiceUrl}
  {
    if configured.Some? && configured.value != "" then configured.value else DefaultServiceUrl
  }

  /** The error thrown for an answer that is not OK: its status, then the
      answer's `detail` when it has a non-empty one. */
  function HttpFailure(status: nat, detail: Option<string>): Failure
  {
    var suffix := if detail.Some? && detail.value != "" then " - " + detail.value else "";
    Failure(OtherError, "HTTP error! status: " + NatToString(status) + suffix)
  }

  const FormatMessage: string := "Audio format not supported by server. The server may need to accept .webm files."
  const GenericMessage: string := "Failed to process speech. Please try again."
  const NoSpeechMessage: string := "No speech detected or unexpected response format. Please try again."
  const NoAudioMessage: string := "No audio data recorded"
  const MicrophoneMessage: string := "Failed to access microphone. Please check permissions."

  /** The message shown for a failure while processing a recording. */
  function ProcessingErrorMessage(f: Failure, url: string): string
  {
    if f.kind == TypeError && Contains(f.message, "fetch") then
      "Cannot connect to speech service at " + url + ". Please check if the FastAPI server is running."
    else if f.kind != NotAnError && Contains(f.message, "HTTP error") then
      if Contains(f.message, "422") then FormatMessage
      else if Contains(f.message, "500") then "Server error: " + f.message + ". Check FastAPI server logs for details."
      else "Speech service error: " + f.message
    else GenericMessage
  }

  /** How a non-OK answer is reported. The component tests the whole message
      for the substrings "422" and "500", not the status itself: status 422
      gives the unsupported-format message; status 500 whose message holds no
      "422" gives the server error quoting the message; a message holding
      neither "422" nor "500" gives the service error. */
  lemma HttpFailureMessages(status: nat, detail: Option<string>, url: string)
    ensures var m := HttpFailure(status, detail).message;
      status == 422 ==> ProcessingErrorMessage(HttpFailure(status, detail), url) == FormatMessage
    ensures var m := HttpFailure(status, detail).message;
      status == 500 && !Contains(m, "422") ==>
        ProcessingErrorMessage(HttpFailure(status, detail), url) == "Server error: " + m + ". Check FastAPI server logs for details."
    ensures var m := HttpFailure(status, detail).message;
      !Contains(m, "422") && !Contains(m, "500") ==>
        ProcessingErrorMessage(HttpFailure(status, detail), url) == "Speech service error: " + m
  {
    var m := HttpFailure(status, detail).message;
    var suffix := if detail.Some? && detail.value != "" then " - " + detail.value else "";
    assert m == "HTTP error! status: " + NatToString(status) + suffix;
    assert OccursAt(m, "HTTP error", 0);
    if status == 422 || status == 500 {
      SpeechBackend.StatusTexts();
      assert m[20..23] == NatToString(status);
      assert OccursAt(m, NatToString(status), 20);
    }
  }

  // ---------------------------------------------------------------- the generative reader's answer

  /** Where `\}` ends when it is tried at `q`. */
  function CloseAt(s: string): nat -> Option<nat>
  {
    (q: nat) => if q < |s| && s[q] == '}' then Some(q + 1) else None
  }

  /** The text `/\{[\s\S]*\}/` matches starting at `p`: the greedy run gives
      characters back until a `}` follows, so the match ends after the last `}`. */
  function BraceEndAt(s: string, p: nat): (e: Option<nat>)
    ensures e.Some? ==> p < e.value <= |s|
  {
    if p < |s| && s[p] == '{' then Found(LastSome(p + 1, |s|, CloseAt(s))) else None
  }

  function OpenAt(s: string): nat -> Option<nat>
  {
    (p: nat) => BraceEndAt(s, p)
  }

  /** The JSON text taken out of the generative reader's answer. */
  function BraceSpan(s: string): Option<string>
  {
    match FirstSome(0, |s|, OpenAt(s))
    case Some((p, e)) => Some(s[p..e])
    case None => None
  }

  /** The span is found exactly when a `{` comes before a `}`, and then runs
      from the first `{` of the answer to its last `}`. */
  lemma BraceSpanMeaning(s: string)
    ensures BraceSpan(s).Some? <==> exists i, j :: 0 <= i < j < |s| && s[i] == '{' && s[j] == '}'
    ensures BraceSpan(s).Some? ==>
      exists i, j :: 0 <= i < j < |s| && BraceSpan(s).value == s[i..j + 1]
        && s[i] == '{' && s[j] == '}' && '{' !in s[..i] && '}' !in s[j + 1..]
  {
    match FirstSome(0, |s|, OpenAt(s))
    case Some((i, e)) =>
      var r := LastSome(i + 1, |s|, CloseAt(s));
      assert OpenAt(s)(i) == BraceEndAt(s, i);
      var j := r.value.0;
      assert CloseAt(s)(j) == Some(e);
      forall k | 0 <= k < i
        ensures s[k] != '{'
      {
        assert OpenAt(s)(k) == BraceEndAt(s, k);
        assert CloseAt(s)(j).Some?;
      }
      forall k | j + 1 <= k < |s|
        ensures s[k] != '}'
      {
        assert CloseAt(s)(k).None?;
      }
      assert '{' !in s[..i] && '}' !in s[j + 1..];
    case None =>
      forall i, j | 0 <= i < j < |s| && s[i] == '{'
        ensures s[j] != '}'
      {
        assert OpenAt(s)(i) == BraceEndAt(s, i);
        assert CloseAt(s)(j) == (if s[j] == '}' then Some(j + 1) else None);
      }
  }

  /** `String(value)` for a value of the parsed answer; an array is written back
      as JSON text instead. */
  function CellText(v: JsonValue): string
  {
    match v
    case JNull => "null"
    case JBool(b) => if b then "true" else "false"
    case JNum(n) => IntToString(n)
    case JStr(s) => s
    case JArr(_) => Stringify(v)
    case JObj(_) => "[object Object]"
  }

  /** An entry survives the cleanup unless it is `null` or the empty string. */
  predicate Kept(v: JsonValue)
  {
    !v.JNull? && v != JStr("")
  }

  /** The cleaned record after the given entries of the parsed object: each
      surviving entry writes its text under its key. */
  function CleanedFields(entries: seq<(string, JsonValue)>): map<string, string>
    decreases |entries|
  {
    if entries == [] then map[]
    else
      var m := CleanedFields(entries[..|entries| - 1]);
      var last := entries[|entries| - 1];
      if Kept(last.1) then m[last.0 := CellText(last.1)] else m
  }

  method CleanFields(entries: seq<(string, JsonValue)>) returns (cleaned: map<string, string>)
    ensures cleaned == CleanedFields(entries)
  {
    cleaned := map[];
    for i := 0 to |entries|
      invariant cleaned == CleanedFields(entries[..i])
    {
      assert entries[..i + 1][..i] == entries[..i];
      var (key, value) := entries[i];
      if value != JNull && value != JStr("") {
        if value.JArr? {
          cleaned := cleaned[key := Stringify(value)];
        } else {
          cleaned := cleaned[key := CellText(value)];
        }
      }
    }
    assert entries[..|entries|] == entries;
  }

  /** A kept value never cleans to the empty text. */
  lemma CellTextNonEmpty(v: JsonValue)
    requires Kept(v)
    ensures CellText(v) != ""
  {
    if v.JArr? {
      assert Stringify(v)[0] == '[';
    }
  }

  /** A key is in the cleaned record exactly when some entry with that key
      survives; its text is never empty; and when the keys are distinct, as in
      a parsed object, it is that entry's text. */
  lemma CleanedFieldsMeaning(entries: seq<(string, JsonValue)>, k: string)
    ensures k in CleanedFields(entries) <==> exists i :: 0 <= i < |entries| && entries[i].0 == k && Kept(entries[i].1)
    ensures k in CleanedFields(entries) ==> CleanedFields(entries)[k] != ""
    ensures Distinct(KeysOf(entries)) ==>
      forall i :: 0 <= i < |entries| && entries[i].0 == k && Kept(entries[i].1) ==>
        k in CleanedFields(entries) && CleanedFields(entries)[k] == CellText(entries[i].1)
  {
    CleanedFieldsDomain(entries, k);
    CleanedFieldsNonEmpty(entries, k);
    CleanedFieldsValue(entries, k);
  }

  lemma {:induction false} CleanedFieldsDomain(entries: seq<(string, JsonValue)>, k: string)
    ensures k in CleanedFields(entries) <==> exists i :: 0 <= i < |entries| && entries[i].0 == k && Kept(entries[i].1)
    decreases |entries|
  {
    if entries != [] {
      var n := |entries| - 1;
      var front := entries[..n];
      CleanedFieldsDomain(front, k);
      if exists i :: 0 <= i < |front| && front[i].0 == k && Kept(front[i].1) {
        var i :| 0 <= i < |front| && front[i].0 == k && Kept(front[i].1);
        assert entries[i] == front[i];
      }
      if exists i :: 0 <= i < |entries| && entries[i].0 == k && Kept(entries[i].1) {
        var i :| 0 <= i < |entries| && entries[i].0 == k && Kept(entries[i].1);
        if i < n {
          assert front[i] == entries[i];
        }
      }
    }
  }

  lemma {:induction false} CleanedFieldsNonEmpty(entries: seq<(string, JsonValue)>, k: string)
    ensures k in CleanedFields(entries) ==> CleanedFields(entries)[k] != ""
    decreases |entries|
  {
    if entries != [] {
      var n := |entries| - 1;
      CleanedFieldsNonEmpty(entries[..n], k);
      if entries[n].0 == k && Kept(entries[n].1) {
        CellTextNonEmpty(entries[n].1);
      }
    }
  }

  lemma {:induction false} CleanedFieldsValue(entries: seq<(string, JsonValue)>, k: string)
    ensures Distinct(KeysOf(entries)) ==>
      forall i :: 0 <= i < |entries| && entries[i].0 == k && Kept(entries[i].1) ==>
        k in CleanedFields(entries) && CleanedFields(entries)[k] == CellText(entries[i].1)
    decreases |entries|
  {
    if entries != [] && Distinct(KeysOf(entries)) {
      var n := |entries| - 1;
      var front := entries[..n];
      assert KeysOf(front) == KeysOf(entries)[..n];
      CleanedFieldsValue(front, k);
      forall i | 0 <= i < |entries| && entries[i].0 == k && Kept(entries[i].1)
        ensures k in CleanedFields(entries) && CleanedFields(entries)[k] == CellText(entries[i].1)
      {
        if i < n {
          assert front[i] == entries[i];
          assert KeysOf(entries)[i] != KeysOf(entries)[n];
        }
      }
    }
  }

  function KeysOf(entries: seq<(string, JsonValue)>): (keys: seq<string>)
    ensures |keys| == |entries| && forall i :: 0 <= i < |entries| ==> keys[i] == entries[i].0
  {
    seq(|entries|, i requires 0 <= i < |entries| => entries[i].0)
  }

  /** An array of strings survives the cleanup as text the profile form reads
      back as the same list. */
  lemma ArrayCellReadsBack(xs: seq<string>)
    ensures ParseStringArray(CellText(JArr(StringValues(xs)))) == Some(xs)
  {
    ParseStringifyStrings(xs);
  }

  /** The generative reader as the component sees it: whether an API key is
      configured, the text of the answer's first candidate (absent when the
      request failed or the answer has none), and what `JSON.parse` makes of a
      text: the entries of the object it reads, or nothing when it throws. */
  datatype Generator = Generator(
    keyConfigured: bool,
    reply: Option<string>,
    entriesOf: string -> Option<seq<(string, JsonValue)>>)

  /** The fields the component hands on for a transcript: the cleaned answer of
      the generative reader, or the pattern reader's fields whenever there is no
      key or any step of the generative path fails. */
  function GeneratedFields(text: string, gen: Generator, year: int): map<string, string>
  {
    var fallback := Named(HeuristicFields(text, year));
    if !gen.keyConfigured || gen.reply.None? || gen.reply.value == "" then fallback
    else match BraceSpan(gen.reply.value)
      case None => fallback
      case Some(span) =>
        match gen.entriesOf(span)
        case None => fallback
        case Some(entries) => CleanedFields(entries)
  }

  method ParseTranscriptionWithGemini(text: string, gen: Generator, year: int) returns (fields: map<string, string>)
    ensures fields == GeneratedFields(text, gen, year)
  {
    if !gen.keyConfigured || gen.reply.None? || gen.reply.value == "" {
      var found := ParseTranscriptionToFields(text, year);
      return Named(found);
    }
    var span := BraceSpan(gen.reply.value);
    var parsed := if span.Some? then gen.entriesOf(span.value) else None;
    if parsed.None? {
      var found := ParseTranscriptionToFields(text, year);
      return Named(found);
    }
    fields := CleanFields(parsed.value);
  }

  /** The answer's entries, when there is a key, an answer, a brace span in it
      and that span parses; otherwise nothing. */
  function ParsedReply(gen: Generator): Option<seq<(string, JsonValue)>>
  {
    if gen.keyConfigured && gen.reply.Some? && BraceSpan(gen.reply.value).Some? then
      gen.entriesOf(BraceSpan(gen.reply.value).value)
    else None
  }

  /** Whenever anything on the generative path fails (no key, no answer, an
      empty answer, no braces, or a span that does not parse) the pattern
      reader decides; otherwise the cleaned entries of the answer are handed
      on. */
  lemma GeneratedFieldsSource(text: string, gen: Generator, year: int)
    ensures ParsedReply(gen).None? ==> GeneratedFields(text, gen, year) == Named(HeuristicFields(text, year))
    ensures ParsedReply(gen).Some? ==> GeneratedFields(text, gen, year) == CleanedFields(ParsedReply(gen).value)
    ensures !gen.keyConfigured ==> GeneratedFields(text, gen, year) == Named(HeuristicFields(text, year))
  {
    if ParsedReply(gen).None? {
      GeneratedFieldsFallback(text, gen, year);
    } else {
      GeneratedFieldsParsed(text, gen, year);
    }
  }

  lemma GeneratedFieldsFallback(text: string, gen: Generator, year: int)
    requires ParsedReply(gen).None?
    ensures GeneratedFields(text, gen, year) == Named(HeuristicFields(text, year))
  {
    if gen.keyConfigured && gen.reply.Some? && gen.reply.value == "" {
      assert BraceSpan(gen.reply.value).None?;
    }
  }

  lemma GeneratedFieldsParsed(text: string, gen: Generator, year: int)
    requires ParsedReply(gen).Some?
    ensures GeneratedFields(text, gen, year) == CleanedFields(ParsedReply(gen).value)
  {
    assert gen.reply.value != "";
  }

  /** When the answer parses, every field handed on is a surviving entry of
      it, with non-empty text. */
  lemma GeneratedFieldsKept(text: string, gen: Generator, year: int)
    ensures ParsedReply(gen).Some? ==>
      var entries := ParsedReply(gen).value;
      forall k :: k in GeneratedFields(text, gen, year) ==>
        GeneratedFields(text, gen, year)[k] != ""
        && exists i :: 0 <= i < |entries| && entries[i].0 == k && Kept(entries[i].1)
  {
    if ParsedReply(gen).Some? {
      var entries := ParsedReply(gen).value;
      GeneratedFieldsSource(text, gen, year);
      var fields := CleanedFields(entries);
      forall k | k in fields
        ensures fields[k] != ""
        ensures exists i :: 0 <= i < |entries| && entries[i].0 == k && Kept(entries[i].1)
      {
        CleanedFieldsMeaning(entries, k);
      }
    }
  }

  // ---------------------------------------------------------------- processing a recording

  /** How processing a recording ends: the transcript and its fields handed to
      the form, or a message shown to the user. */
  datatype Processed = Delivered(transcript: string, fields: map<string, string>) | Shown(message: string)

  /** Processing a recording whose first chunk has type `chunkType`. `connection`
      is the exception thrown when the speech service cannot be reached;
      otherwise the service answers as its handler does for the uploaded file
      name, with `transcribe` what its speech model gives. */
  function Processing(chunkType: string, connection: Option<Failure>, transcribe: SpeechBackend.Outcome<string>,
                      gen: Generator, year: int, url: string): Processed
  {
    if connection.Some? then Shown(ProcessingErrorMessage(connection.value, url))
    else match SpeechBackend.SpeechToText(Some(UploadFormat(chunkType).0), transcribe)
      case Ok(t) => if t != "" then Delivered(t, GeneratedFields(t, gen, year)) else Shown(NoSpeechMessage)
      case HttpError(status, detail) => Shown(ProcessingErrorMessage(HttpFailure(status, Some(detail)), url))
  }

  /** A transcript is handed on exactly when the service is reached, accepts the
      upload and hears something; it is the model's text without surrounding
      white space. */
  lemma ProcessingDelivers(chunkType: string, connection: Option<Failure>, transcribe: SpeechBackend.Outcome<string>,
                           gen: Generator, year: int, url: string)
    ensures Processing(chunkType, connection, transcribe, gen, year, url).Delivered? <==>
      connection.None? && SpeechBackend.AcceptedUpload(Some(UploadFormat(chunkType).0))
      && transcribe.Done? && TrimBy(PySpace, transcribe.value) != ""
    ensures Processing(chunkType, connection, transcribe, gen, year, url).Delivered? ==>
      Processing(chunkType, connection, transcribe, gen, year, url).transcript == TrimBy(PySpace, transcribe.value)
  {
    SpeechBackend.SpeechToTextReplies(Some(UploadFormat(chunkType).0), transcribe);
  }

  /** A WebM recording is refused by the speech service, and the user is told of
      a server error quoting the service's 400, not that the format is unsupported. */
  lemma WebmRecordingShowsServerError(chunkType: string, transcribe: SpeechBackend.Outcome<string>,
                                      gen: Generator, year: int, url: string)
    requires UploadFormat(chunkType).0 == "recording.webm"
    ensures Processing(chunkType, None, transcribe, gen, year, url) ==
      Shown("Server error: " + RejectionFailure().message + ". Check FastAPI server logs for details.")
  {
    SpeechBackend.RecorderUploadNames();
    ProcessingRejected(chunkType, transcribe, gen, year, url);
    RejectionFailureText();
  }

  /** An upload the service refuses is reported with the failure its answer raises. */
  lemma ProcessingRejected(chunkType: string, transcribe: SpeechBackend.Outcome<string>,
                           gen: Generator, year: int, url: string)
    requires !SpeechBackend.AcceptedUpload(Some(UploadFormat(chunkType).0))
    ensures Processing(chunkType, None, transcribe, gen, year, url) == Shown(ProcessingErrorMessage(RejectionFailure(), url))
  {
    SpeechBackend.RejectedUploadReply(Some(UploadFormat(chunkType).0), transcribe);
  }

  /** What the client throws for the service's answer to a refused upload. */
  function RejectionFailure(): Failure
  {
    HttpFailure(500, Some(SpeechBackend.TranscribePrefix + "400: " + SpeechBackend.BadFormatDetail))
  }

  lemma RejectionFailureText()
    ensures Contains(RejectionFailure().message, "HTTP error")
    ensures Contains(RejectionFailure().message, "500")
    ensures !Contains(RejectionFailure().message, "422")
    ensures RejectionFailure().message ==
      "HTTP error! status: 500 - " + SpeechBackend.TranscribePrefix + "400: " + SpeechBackend.BadFormatDetail
  {
    SpeechBackend.StatusTexts();
    var head := "HTTP error! status: 500 - " + SpeechBackend.TranscribePrefix + "400: ";
    var m := head + SpeechBackend.BadFormatDetail;
    assert RejectionFailure().message == m;
    assert OccursAt(m, "HTTP error", 0);
    assert OccursAt(m, "500", 20);
    NoTwoInRejection();
    NotContainsMissing(m, "422", 1);
  }

  lemma NoTwoInRejection()
    ensures '2' !in "HTTP error! status: 500 - " + SpeechBackend.TranscribePrefix + "400: " + SpeechBackend.BadFormatDetail
  {
    assert '2' !in "HTTP error! status: 500 - ";
    assert '2' !in SpeechBackend.TranscribePrefix;
    SpeechBackend.DetailWithoutTwo();
  }

  // ---------------------------------------------------------------- the recorder

  /** A piece of recorded audio: its size in bytes and its MIME type. */
  datatype Chunk = Chunk(size: nat, chunkType: string)

  /** The component's recorder: whether it is recording or processing, the
      message it shows, and the audio gathered so far. */
  class VoiceRecorder {
    var isRecording: bool
    var isProcessing: bool
    var error: Option<string>
    /** A recorder has been created. */
    var hasRecorder: bool
    var mimeType: string
    var chunks: seq<Chunk>

    /** Processing happens only after recording has stopped, and only for a
        recording with audio. */
    predicate Valid()
      reads this
    {
      (isRecording ==> hasRecorder) && (isProcessing ==> !isRecording && chunks != [])
    }

    constructor()
      ensures Valid()
      ensures !isRecording && !isProcessing && error.None? && !hasRecorder && chunks == []
    {
      isRecording, isProcessing, error, hasRecorder := false, false, None, false;
      mimeType, chunks := "", [];
    }

    /** The button is usable unless the component is disabled or processing. */
    predicate ButtonEnabled(disabled: bool)
      reads this
    {
      !disabled && !isProcessing
    }

    /** `startRecording`: `granted` is whether the microphone and a recorder
        for the chosen type could be had. */
    method StartRecording(granted: bool, supported: set<string>)
      requires Valid() && !isProcessing
      modifies this
      ensures Valid()
      ensures granted ==>
        isRecording && hasRecorder && mimeType == SelectMimeType(supported).0 && chunks == [] && error.None?
      ensures !granted ==>
        error == Some(MicrophoneMessage) && isRecording == old(isRecording) && hasRecorder == old(hasRecorder)
        && mimeType == old(mimeType) && chunks == old(chunks)
      ensures isProcessing == old(isProcessing)
    {
      error := None;
      if !granted {
        error := Some(MicrophoneMessage);
        return;
      }
      var format := SelectMimeType(supported);
      mimeType := format.0;
      hasRecorder := true;
      chunks := [];
      isRecording := true;
    }

    /** The recorder hands over a chunk of audio; empty ones are dropped. */
    method DataAvailable(c: Chunk)
      requires Valid()
      modifies this
      ensures Valid()
      ensures chunks == old(chunks) + (if c.size > 0 then [c] else [])
      ensures isRecording == old(isRecording) && isProcessing == old(isProcessing) && error == old(error)
      ensures hasRecorder == old(hasRecorder) && mimeType == old(mimeType)
    {
      if c.size > 0 {
        chunks := chunks + [c];
      }
    }

    /** `stopRecording`: stops a recording in progress; the caller then
        processes it. */
    method StopRecording() returns (stopped: bool)
      requires Valid()
      modifies this
      ensures Valid()
      ensures stopped <==> old(hasRecorder && isRecording)
      ensures isRecording == (old(isRecording) && !stopped)
      ensures isProcessing == old(isProcessing) && error == old(error) && chunks == old(chunks)
      ensures hasRecorder == old(hasRecorder) && mimeType == old(mimeType)
    {
      stopped := hasRecorder && isRecording;
      if stopped {
        isRecording := false;
      }
    }

    /** The record button: stops a recording in progress, otherwise starts one;
        nothing happens while it is disabled. */
    method Tap(disabled: bool, granted: bool, supported: set<string>) returns (stopped: bool)
      requires Valid()
      modifies this
      ensures Valid()
      ensures !old(ButtonEnabled(disabled)) ==>
        !stopped && isRecording == old(isRecording) && error == old(error) && chunks == old(chunks)
      ensures old(ButtonEnabled(disabled)) && old(isRecording) ==> !isRecording && stopped
      ensures old(ButtonEnabled(disabled)) && !old(isRecording) ==> !stopped && (isRecording <==> granted)
      ensures isProcessing == old(isProcessing)
    {
      stopped := false;
      if !ButtonEnabled(disabled) {
        return;
      }
      if isRecording {
        stopped := StopRecording();
      } else {
        StartRecording(granted, supported);
      }
    }

    /** The first half of `processRecording`: a recording without audio only
        sets the message; otherwise processing begins. */
    method BeginProcessing() returns (started: bool)
      requires Valid() && !isRecording && !isProcessing
      modifies this
      ensures Valid()
      ensures started <==> old(chunks) != []
      ensures !started ==> error == Some(NoAudioMessage) && !isProcessing
      ensures started ==> isProcessing && error == old(error)
      ensures chunks == old(chunks) && isRecording == old(isRecording)
      ensures hasRecorder == old(hasRecorder) && mimeType == old(mimeType)
    {
      if chunks == [] {
        error := Some(NoAudioMessage);
        return false;
      }
      isProcessing := true;
      started := true;
    }

    /** The rest of `processRecording`, once the service and the generative
        reader have answered: hands on the transcript or shows the message,
        then leaves processing and drops the audio, whatever happened. */
    method FinishProcessing(connection: Option<Failure>, transcribe: SpeechBackend.Outcome<string>,
                            gen: Generator, year: int, url: string)
      returns (delivered: Option<(string, map<string, string>)>)
      requires Valid() && isProcessing
      modifies this
      ensures Valid()
      ensures !isProcessing && chunks == []
      ensures match Processing(old(chunks)[0].chunkType, connection, transcribe, gen, year, url)
        case Delivered(t, fields) => delivered == Some((t, fields)) && error == old(error)
        case Shown(message) => delivered.None? && error == Some(message)
      ensures isRecording == old(isRecording) && hasRecorder == old(hasRecorder) && mimeType == old(mimeType)
    {
      var chunkType := chunks[0].chunkType;
      ghost var outcome := Processing(chunkType, connection, transcribe, gen, year, url);
      var upload := UploadFormat(chunkType);
      delivered := None;
      if connection.Some? {
        error := Some(ProcessingErrorMessage(connection.value, url));
      } else {
        var reply := SpeechBackend.SpeechToText(Some(upload.0), transcribe);
        if reply.HttpError? {
          error := Some(ProcessingErrorMessage(HttpFailure(reply.status, Some(reply.detail)), url));
          assert outcome == Shown(error.value);
        } else if reply.body != "" {
          var fields := ParseTranscriptionWithGemini(reply.body, gen, year);
          delivered := Some((reply.body, fields));
          assert outcome == Delivered(reply.body, fields);
        } else {
          error := Some(NoSpeechMessage);
          assert outcome == Shown(NoSpeechMessage);
        }
      }
      isProcessing := false;
      chunks := [];
    }
  }
}
