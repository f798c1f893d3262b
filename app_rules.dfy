/**
 * The rules the web handlers apply around `get_transcript`: which results
 * count as errors, how the metadata dictionary is completed, which HTTP
 * status a failure gets, how a missing title is filled in, how the
 * metadata the summariser reports is laid over the dictionary, and the
 * whole `/api/process-video` handler. Flask, pytube, the summariser and
 * `json.loads` are inputs: what pytube reports, what the summariser answers
 * and what the parsed notes look like.
 */
module AppRules {
  import opened Strings
  import opened Values
  import opened MetadataMerge
  import opened Duration
  import opened TextAgent
  import opened YouTubeUrl
  import Acquisition

  // ---------------------------------------------------------------------------
  // is_transcript_error
  // ---------------------------------------------------------------------------

  /** `is_transcript_error(transcript)`: a string whose stripped, lower-cased form starts with "error:". */
  predicate IsTranscriptError(t: Val) {
    t.Str? && StartsWith(Lower(Strip(t.s)), "error:")
  }

  /** A message that starts with "Error:" and has no whitespace at its ends is read as an error. */
  lemma ErrorPrefixIsError(m: string)
    requires |m| >= 6 && m[..6] == "Error:" && !IsSpace(m[|m| - 1])
    ensures IsTranscriptError(Str(m))
  {
    assert m[0] == 'E';
    StripNoop(m);
    var l := Lower(m);
    forall i | 0 <= i < 6 ensures l[i] == "error:"[i] {
      assert m[i] == m[..6][i];
    }
    assert l[..6] == "error:";
  }

  /** Each failure message starts with "Error:" and has no whitespace at its ends. */
  lemma FailureMessageShape(m: string)
    requires Acquisition.IsFailureMessage(m)
    ensures |m| >= 6 && m[..6] == "Error:" && !IsSpace(m[0]) && !IsSpace(m[|m| - 1])
  {
    assert m[..6] == Acquisition.ErrorPrefix[..6];
  }

  /** The four failure messages of `get_transcript` are all read as errors. */
  lemma FailureMessagesAreErrors(m: string)
    requires Acquisition.IsFailureMessage(m)
    ensures IsTranscriptError(Str(m))
  {
    FailureMessageShape(m);
    ErrorPrefixIsError(m);
  }

  /** The failure messages have no whitespace at their ends. */
  lemma FailureMessagesAreStripped(m: string)
    requires Acquisition.IsFailureMessage(m)
    ensures Strip(m) == m
  {
    FailureMessageShape(m);
    StripNoop(m);
  }

  /**
   * What `get_transcript` returns is read as an error exactly when it starts
   * with "error:" in any case: every failure message does, and a transcript
   * that happens to begin that way is mistaken for one.
   */
  lemma AcquiredErrorIff(url: string, env: Acquisition.Env)
    ensures var t := Acquisition.Acquire(url, env).text;
      (Acquisition.IsFailureMessage(t) ==> IsTranscriptError(Str(t)))
      && (IsTranscriptError(Str(t)) <==> StartsWith(Lower(t), "error:"))
  {
    var t := Acquisition.Acquire(url, env).text;
    Acquisition.TranscriptIsClean(url, env);
    if Acquisition.IsFailureMessage(t) {
      FailureMessagesAreErrors(t);
      FailureMessagesAreStripped(t);
    }
  }

  // ---------------------------------------------------------------------------
  // extract_transcript_metadata
  // ---------------------------------------------------------------------------

  /**
   * What `get_transcript` handed back: a 2-tuple whose metadata part is a
   * dictionary or something falsy (`None`), or any other value.
   */
  datatype TranscriptResult = Pair(transcript: Val, metadata: Option<Dict>) | Single(value: Val)

  /** The five keys in the order the handlers visit them. */
  const MetadataFields: seq<string> := ["title", "channel", "duration", "duration_seconds", "url"]

  lemma MetadataFieldsAreKeys()
    ensures forall k :: k in MetadataFields <==> k in MetadataKeys
  {
  }

  /** `d.setdefault(k, v)`. */
  function SetDefault(md: Dict, k: string, v: Val): Dict {
    if k in md then md else md[k := v]
  }

  /** The five `setdefault` calls: every missing metadata key is added, as `None` or, for the URL, the video URL. */
  function WithDefaults(md: Dict, url: string): (r: Dict)
    ensures r.Keys == md.Keys + MetadataKeys
    ensures forall k :: k in md ==> r[k] == md[k]
    ensures forall k :: k in MetadataKeys && k !in md ==> r[k] == (if k == "url" then Str(url) else Null)
  {
    SetDefault(SetDefault(SetDefault(SetDefault(SetDefault(md, "title", Null), "channel", Null),
      "duration", Null), "duration_seconds", Null), "url", Str(url))
  }

  /** `extract_transcript_metadata(video_url, result)` as a function. */
  function Unpack(videoUrl: string, result: TranscriptResult): (Val, Dict) {
    match result
    case Pair(t, md) => (t, WithDefaults(if md.Some? then md.value else map[], videoUrl))
    case Single(v) => (v, WithDefaults(map[], videoUrl))
  }

  /** `extract_transcript_metadata(video_url, result)`: unpack, then fill the missing keys one `setdefault` at a time. */
  method ExtractTranscriptMetadata(videoUrl: string, result: TranscriptResult) returns (transcript: Val, metadata: Dict)
    ensures (transcript, metadata) == Unpack(videoUrl, result)
  {
    if result.Pair? {
      transcript := result.transcript;
      metadata := if result.metadata.Some? then result.metadata.value else map[];
    } else {
      transcript := result.value;
      metadata := map[];
    }
    if "title" !in metadata { metadata := metadata["title" := Null]; }
    if "channel" !in metadata { metadata := metadata["channel" := Null]; }
    if "duration" !in metadata { metadata := metadata["duration" := Null]; }
    if "duration_seconds" !in metadata { metadata := metadata["duration_seconds" := Null]; }
    if "url" !in metadata { metadata := metadata["url" := Str(videoUrl)]; }
  }

  /** Completing the metadata twice is completing it once. */
  lemma WithDefaultsIdempotent(md: Dict, url: string)
    ensures WithDefaults(WithDefaults(md, url), url) == WithDefaults(md, url)
  {
    var once := WithDefaults(md, url);
    var twice := WithDefaults(once, url);
    assert twice.Keys == once.Keys;
    forall k | k in once ensures twice[k] == once[k] {
    }
  }

  /** Anything but a pair becomes the value itself with the same metadata shell `get_transcript` starts from. */
  lemma UnpackSingle(videoUrl: string, v: Val)
    ensures Unpack(videoUrl, Single(v)) == (v, Shell(videoUrl))
  {
    var md := WithDefaults(map[], videoUrl);
    assert md.Keys == Shell(videoUrl).Keys;
    forall k | k in md ensures md[k] == Shell(videoUrl)[k] {
    }
  }

  /** The pair `get_transcript` returns passes through unchanged: its metadata already holds the five keys. */
  lemma UnpackAcquired(url: string, env: Acquisition.Env)
    ensures var a := Acquisition.Acquire(url, env);
      Unpack(url, Pair(Str(a.text), Some(a.metadata))) == (Str(a.text), a.metadata)
  {
    var a := Acquisition.Acquire(url, env);
    Acquisition.AcquireMetadataKeys(url, env);
    UnpackComplete(url, Str(a.text), a.metadata);
  }

  /** A pair whose metadata already holds the five keys is unpacked unchanged. */
  lemma UnpackComplete(url: string, t: Val, md: Dict)
    requires md.Keys == MetadataKeys
    ensures Unpack(url, Pair(t, Some(md))) == (t, md)
  {
    var md' := WithDefaults(md, url);
    assert md'.Keys == md.Keys;
  }

  // ---------------------------------------------------------------------------
  // From a failed transcript to an HTTP status
  // ---------------------------------------------------------------------------

  const GenericTranscriptFailure: string := "Failed to retrieve transcript. Check backend logs for details."

  /** An error reply of `process_video`: its HTTP status and its message. */
  datatype Failure = Failure(status: int, message: string)

  /** The blocking failures, for which the client should back off. */
  predicate IsBlockingMessage(m: string) {
    m == Acquisition.RateLimitError || m == Acquisition.IpBlockedError
  }

  /**
   * `if not transcript or is_transcript_error(transcript): ...` in
   * `process_video`: no failure for a usable transcript, 429 for the two
   * blocking messages, 500 with the message for any other error string, and
   * 500 with a generic message for an empty or missing transcript.
   */
  function TranscriptFailure(t: Val): (r: Option<Failure>)
    ensures r.None? <==> Truthy(t) && !IsTranscriptError(t)
    ensures r.Some? ==> r.value.status == 429 || r.value.status == 500
    ensures (r.Some? && r.value.status == 429) <==> IsTranscriptError(t) && IsBlockingMessage(Strip(t.s))
    ensures IsTranscriptError(t) ==> r.Some? && r.value.message == Strip(t.s)
    ensures !Truthy(t) ==> r == Some(Failure(500, GenericTranscriptFailure))
  {
    if !Truthy(t) || IsTranscriptError(t) then
      if IsTranscriptError(t) then
        var message := Strip(t.s);
        Some(Failure(if IsBlockingMessage(message) then 429 else 500, message))
      else Some(Failure(500, GenericTranscriptFailure))
    else None
  }

  /**
   * For what `get_transcript` returns: 429 exactly for the rate-limit and
   * IP-block messages, the failure message itself with any failure, and no
   * failure for a transcript unless it begins with "error:".
   */
  lemma AcquiredStatus(url: string, env: Acquisition.Env)
    ensures var t := Acquisition.Acquire(url, env).text;
      var r := TranscriptFailure(Str(t));
      ((r.Some? && r.value.status == 429) <==> IsBlockingMessage(t))
      && (Acquisition.IsFailureMessage(t) ==> r.Some? && r.value.message == t)
      && (r.None? <==> !StartsWith(Lower(t), "error:"))
  {
    Acquisition.TranscriptIsClean(url, env);
    CleanOutcomeStatus(Acquisition.Acquire(url, env).text);
  }

  /** What `get_transcript` can return: a failure message, or a non-empty stripped transcript. */
  predicate IsCleanOutcome(t: string) {
    Acquisition.IsFailureMessage(t) || (t != "" && Strip(t) == t)
  }

  /** The statuses of `AcquiredStatus`, for any text of that shape. */
  lemma CleanOutcomeStatus(t: string)
    requires IsCleanOutcome(t)
    ensures var r := TranscriptFailure(Str(t));
      ((r.Some? && r.value.status == 429) <==> IsBlockingMessage(t))
      && (Acquisition.IsFailureMessage(t) ==> r.Some? && r.value.message == t)
      && (r.None? <==> !StartsWith(Lower(t), "error:"))
  {
    if Acquisition.IsFailureMessage(t) {
      FailureMessagesAreErrors(t);
      FailureMessagesAreStripped(t);
      FailureMessageShape(t);
    }
    StrippedStatus(t, Acquisition.IsFailureMessage(t));
  }

  /** The statuses for a non-empty text without whitespace at its ends; `failure` marks a text known to be an error. */
  lemma StrippedStatus(t: string, failure: bool)
    requires t != "" && Strip(t) == t
    requires failure ==> IsTranscriptError(Str(t))
    requires IsBlockingMessage(t) ==> failure
    ensures var r := TranscriptFailure(Str(t));
      ((r.Some? && r.value.status == 429) <==> IsBlockingMessage(t))
      && (failure ==> r.Some? && r.value.message == t)
      && (r.None? <==> !StartsWith(Lower(t), "error:"))
  {
    if StartsWith(Lower(t), "error:") {
      assert IsTranscriptError(Str(t));
    } else {
      assert !IsTranscriptError(Str(t)) && Truthy(Str(t));
    }
  }

  /** The message chosen by priority is 429 exactly when it is the rate-limit or the IP-block message. */
  lemma PriorityStatus(rateLimited: bool, blocked: bool, t: string)
    requires t == if rateLimited then Acquisition.RateLimitError
                 else if blocked then Acquisition.IpBlockedError
                 else Acquisition.NoCaptionsError
    ensures TranscriptFailure(Str(t)).Some?
    ensures TranscriptFailure(Str(t)).value.status == 429 <==> rateLimited || blocked
  {
    FailureMessagesAreErrors(t);
    FailureMessagesAreStripped(t);
    FailureMessageShape(t);
    StrippedStatus(t, true);
  }

  /**
   * When neither strategy gives a transcript, the reply is 429 exactly when
   * Strategy A saw a 429 or the transcript API reported a block; otherwise
   * it is 500.
   */
  lemma BlockedAcquisitionIs429(url: string, env: Acquisition.Env)
    requires Acquisition.ReachesStrategyB(url, env) && !Acquisition.StrategyBSucceeds(url, env)
    ensures var id := ExtractVideoId(url);
      var r := TranscriptFailure(Str(Acquisition.Acquire(url, env).text));
      r.Some? && (r.value.status == 429 <==>
        Acquisition.FirstStrategy(url, env).rateLimited || (id != "" && Acquisition.ApiBlocked(env.api(id))))
  {
    var id := ExtractVideoId(url);
    var rl := Acquisition.FirstStrategy(url, env).rateLimited;
    var blocked := id != "" && Acquisition.ApiBlocked(env.api(id));
    Acquisition.FailurePriority(url, env);
    PriorityStatus(rl, blocked, Acquisition.Acquire(url, env).text);
  }

  // ---------------------------------------------------------------------------
  // The missing title
  // ---------------------------------------------------------------------------

  /**
   * What `YouTube(video_url)` gives: an exception, or the video's `title`,
   * `author` (`None` when absent), `length` and `watch_url` (absent: `None`).
   */
  datatype PyTube = PyTubeFailed | PyTubeVideo(title: Val, author: Val, length: Option<int>, watchUrl: Option<Val>)

  /** `metadata['title'] = metadata.get('title') or video_title`. */
  function SetTitle(md: Dict, videoTitle: Val): Dict {
    md["title" := Or(Get(md, "title"), videoTitle)]
  }

  /** The pytube branch: every one of the four fields keeps a truthy value and otherwise takes pytube's. */
  function FromPyTube(md: Dict, videoUrl: string, title: Val, author: Val, length: Option<int>, watchUrl: Option<Val>): Dict {
    md["title" := Or(Get(md, "title"), title)]
      ["channel" := Or(Get(md, "channel"), author)]
      ["duration" := Or(Get(md, "duration"), OptStr(FormatDuration(length)))]
      ["url" := Or(Get(md, "url"), if watchUrl.Some? then watchUrl.value else Str(videoUrl))]
  }

  /**
   * Fetch the title from pytube when the metadata has none, falling back to
   * `fallback` when pytube fails, then set the metadata title; returns the
   * new metadata and `video_title`.
   */
  function FillTitle(md: Dict, videoUrl: string, pytube: PyTube, fallback: string): (r: (Dict, Val))
    // the video title is the metadata's, else pytube's, else the fallback
    ensures r.1 == (if Truthy(Get(md, "title")) then Get(md, "title")
                    else if pytube.PyTubeFailed? then Str(fallback) else pytube.title)
    // the metadata title is its own when truthy, else the video title
    ensures Get(r.0, "title") == Or(Get(md, "title"), r.1)
    // with a title, or when pytube fails, nothing but the title changes
    ensures Truthy(Get(md, "title")) ==> r.0 == md
    ensures pytube.PyTubeFailed? ==> r.0 == md["title" := Or(Get(md, "title"), Str(fallback))]
    // truthy fields are never replaced, and only the five keys are touched
    ensures forall k :: k in MetadataKeys && Truthy(Get(md, k)) ==> Get(r.0, k) == Get(md, k)
    ensures md.Keys + {"title"} <= r.0.Keys <= md.Keys + MetadataKeys
    ensures forall k :: k in md && k !in MetadataKeys ==> r.0[k] == md[k]
  {
    var title := Get(md, "title");
    var (md1, videoTitle) :=
      if Truthy(title) then (md, title)
      else match pytube
        case PyTubeFailed => (md, Str(fallback))
        case PyTubeVideo(t, a, len, w) => (FromPyTube(md, videoUrl, t, a, len, w), t);
    (SetTitle(md1, videoTitle), videoTitle)
  }

  /** Repeating `metadata['title'] = metadata.get('title') or video_title` changes nothing. */
  lemma SetTitleIdempotent(md: Dict, videoTitle: Val)
    ensures SetTitle(SetTitle(md, videoTitle), videoTitle) == SetTitle(md, videoTitle)
  {
  }

  /** A non-empty fallback leaves a title in the metadata unless pytube reports an empty one. */
  lemma TitleIsSet(md: Dict, videoUrl: string, pytube: PyTube, fallback: string)
    requires fallback != "" && (pytube.PyTubeVideo? ==> Truthy(pytube.title))
    ensures Truthy(Get(FillTitle(md, videoUrl, pytube, fallback).0, "title"))
    ensures Truthy(FillTitle(md, videoUrl, pytube, fallback).1)
  {
  }

  // ---------------------------------------------------------------------------
  // The metadata reported with the notes
  // ---------------------------------------------------------------------------

  /** One step of the loop: a truthy value replaces the metadata's. */
  function OverlayKey(md: Dict, notesMd: Dict, key: string): Dict {
    var value := Get(notesMd, key);
    if Truthy(value) then md[key := value] else md
  }

  /** The loop over `keys`, in order. */
  function OverlayKeys(md: Dict, notesMd: Dict, keys: seq<string>): (r: Dict)
    ensures r.Keys == md.Keys + (set k | k in keys && Truthy(Get(notesMd, k)))
    ensures forall k :: k in r ==> r[k] == if k in keys && Truthy(Get(notesMd, k)) then Get(notesMd, k) else md[k]
    decreases |keys|
  {
    if |keys| == 0 then md else OverlayKeys(OverlayKey(md, notesMd, keys[0]), notesMd, keys[1..])
  }

  /** The loop over the five keys of `notes['metadata']`. */
  function Overlay(md: Dict, notesMd: Dict): Dict {
    OverlayKeys(md, notesMd, MetadataFields)
  }

  /** `for key in (...): value = notes_metadata.get(key); if value: metadata[key] = value`. */
  method OverlayNotesMetadata(md: Dict, notesMd: Dict) returns (r: Dict)
    ensures r == Overlay(md, notesMd)
  {
    r := md;
    for i := 0 to |MetadataFields|
      invariant OverlayKeys(r, notesMd, MetadataFields[i..]) == OverlayKeys(md, notesMd, MetadataFields)
    {
      assert MetadataFields[i..][1..] == MetadataFields[i + 1..];
      var key := MetadataFields[i];
      var value := Get(notesMd, key);
      if Truthy(value) {
        r := r[key := value];
      }
    }
  }

  /** Laying the same notes metadata over twice is doing it once. */
  lemma OverlayIdempotent(md: Dict, notesMd: Dict)
    ensures Overlay(Overlay(md, notesMd), notesMd) == Overlay(md, notesMd)
  {
    OverlayKeysIdempotent(md, notesMd, MetadataFields);
  }

  /** The same, for any list of keys. */
  lemma OverlayKeysIdempotent(md: Dict, notesMd: Dict, keys: seq<string>)
    ensures OverlayKeys(OverlayKeys(md, notesMd, keys), notesMd, keys) == OverlayKeys(md, notesMd, keys)
  {
    var once := OverlayKeys(md, notesMd, keys);
    var twice := OverlayKeys(once, notesMd, keys);
    assert twice.Keys == once.Keys;
  }

  /** The overlay never makes a truthy field falsy, and never drops a key. */
  lemma OverlayKeepsTruthy(md: Dict, notesMd: Dict)
    ensures forall k :: k in md ==> k in Overlay(md, notesMd)
    ensures forall k :: k in md && Truthy(md[k]) ==> Truthy(Overlay(md, notesMd)[k])
  {
    OverlayKeysKeepTruthy(md, notesMd, MetadataFields);
  }

  /** The same, for any list of keys. */
  lemma OverlayKeysKeepTruthy(md: Dict, notesMd: Dict, keys: seq<string>)
    ensures forall k :: k in md ==> k in OverlayKeys(md, notesMd, keys)
    ensures forall k :: k in md && Truthy(md[k]) ==> Truthy(OverlayKeys(md, notesMd, keys)[k])
  {
  }

  // ---------------------------------------------------------------------------
  // process_video
  // ---------------------------------------------------------------------------

  /** What `summarize_transcript` does: raise, or answer with a string (`""` for `None`). */
  datatype Summary = SummaryRaised(message: string) | Reply(text: string)

  /**
   * What `json.loads` makes of the cleaned answer: not JSON, an object (with
   * its `error` entry, if any, and its `metadata` entry when that is an
   * object), or some other JSON value.
   */
  datatype Notes = NotJson | NotesObject(error: Option<Val>, metadata: Option<Dict>) | NotesOther

  /**
   * The collaborators for one video: `get_transcript`'s result, pytube, the
   * summariser, the parsed notes, and the message of the `TypeError`
   * `clean_transcript` raises on a transcript that is not a string.
   */
  datatype VideoWorld = VideoWorld(result: TranscriptResult, pytube: PyTube, summary: Summary, notes: Notes, typeError: string)

  /** A reply of `process_video`: an error with its status, the notes (status 200), or an exception that escapes the handler. */
  datatype VideoResponse =
    | ErrorReply(status: int, error: Val, errorMetadata: Option<Dict>)
    | NotesReply(transcript: string, notes: Notes, metadata: Dict)
    | Crashed(message: string)

  const UrlRequired: string := "Video URL is required"
  const SummarizerFailed: string := "Failed to generate notes from summarizer agent."
  const NotesNotJson: string := "Failed to parse summary from AI. The response was not valid JSON."

  /** The metadata after the notes: overlaid when the notes are an object with a `metadata` object. */
  function NotesMetadata(md: Dict, notes: Notes): (r: Dict)
    ensures md.Keys <= r.Keys
    ensures forall k :: k in md && Truthy(md[k]) ==> Truthy(r[k])
  {
    if notes.NotesObject? && notes.metadata.Some? then
      OverlayKeepsTruthy(md, notes.metadata.value);
      Overlay(md, notes.metadata.value)
    else md
  }

  /**
   * From the summariser on: an empty answer, an answer that is not JSON and
   * notes carrying an `error` are errors (500, without metadata); otherwise
   * the cleaned transcript, the notes and the metadata are sent.
   */
  function SummarizeStep(cleaned: string, md: Dict, w: VideoWorld): (r: VideoResponse)
    ensures r.NotesReply? <==>
      w.summary.Reply? && w.summary.text != "" && (w.notes.NotesOther? || (w.notes.NotesObject? && w.notes.error.None?))
    ensures r.NotesReply? ==> r.transcript == cleaned && r.notes == w.notes && r.metadata == NotesMetadata(md, w.notes)
    ensures r.ErrorReply? ==> r.status == 500 && r.errorMetadata.None?
    ensures r.Crashed? <==> w.summary.SummaryRaised?
  {
    match w.summary
    case SummaryRaised(m) => Crashed(m)
    case Reply(text) =>
      if text == "" then ErrorReply(500, Str(SummarizerFailed), None)
      else match w.notes
        case NotJson => ErrorReply(500, Str(NotesNotJson), None)
        case NotesObject(Some(e), _) => ErrorReply(500, e, None)
        case _ => NotesReply(cleaned, w.notes, NotesMetadata(md, w.notes))
  }

  /** `process_video()` for the request's `video_url` (`""` when missing). */
  function ProcessVideo(videoUrl: string, w: VideoWorld): (r: VideoResponse)
    ensures (r.ErrorReply? && r.status == 400) <==> videoUrl == ""
    ensures r.ErrorReply? ==> r.status == 400 || r.status == 429 || r.status == 500
    ensures r.NotesReply? ==> videoUrl != "" && TranscriptFailure(Unpack(videoUrl, w.result).0).None?
  {
    if videoUrl == "" then ErrorReply(400, Str(UrlRequired), None)
    else
      var u := Unpack(videoUrl, w.result);
      match TranscriptFailure(u.0)
      case Some(f) => ErrorReply(f.status, Str(f.message), Some(u.1))
      case None =>
        if !u.0.Str? then Crashed(w.typeError)
        else SummarizeStep(CleanTranscript(u.0.s), FillTitle(u.1, videoUrl, w.pytube, "Unknown Video").0, w)
  }

  /**
   * A failed transcript is answered at once with its status, its message and
   * the metadata, whatever pytube, the summariser and the notes would do.
   */
  lemma FailedTranscriptReply(videoUrl: string, w: VideoWorld, w': VideoWorld)
    requires videoUrl != "" && w'.result == w.result
    requires TranscriptFailure(Unpack(videoUrl, w.result).0).Some?
    ensures var f := TranscriptFailure(Unpack(videoUrl, w.result).0).value;
      ProcessVideo(videoUrl, w) == ErrorReply(f.status, Str(f.message), Some(Unpack(videoUrl, w.result).1))
      && ProcessVideo(videoUrl, w') == ProcessVideo(videoUrl, w)
  {
  }

  /**
   * A successful reply carries the cleaned transcript and a metadata
   * dictionary with all five keys and a title, when pytube is not asked or
   * gives a title.
   */
  lemma NotesReplyShape(videoUrl: string, w: VideoWorld)
    requires ProcessVideo(videoUrl, w).NotesReply?
    ensures var t := Unpack(videoUrl, w.result).0;
      var r := ProcessVideo(videoUrl, w);
      t.Str? && r.transcript == CleanTranscript(t.s)
      && MetadataKeys <= r.metadata.Keys
      && ((w.pytube.PyTubeVideo? && !Truthy(w.pytube.title)) || Truthy(Get(r.metadata, "title")))
  {
    var u := Unpack(videoUrl, w.result);
    var md1 := FillTitle(u.1, videoUrl, w.pytube, "Unknown Video").0;
    assert ProcessVideo(videoUrl, w) == SummarizeStep(CleanTranscript(u.0.s), md1, w);
    if !(w.pytube.PyTubeVideo? && !Truthy(w.pytube.title)) {
      TitleIsSet(u.1, videoUrl, w.pytube, "Unknown Video");
    }
  }

  /**
   * For the pair `get_transcript` returns: the reply is 429 exactly for the
   * rate-limit and IP-block messages, and any failure message is sent back
   * with the acquisition's own metadata.
   */
  lemma ProcessAcquired(url: string, env: Acquisition.Env, w: VideoWorld)
    requires url != ""
    requires var a := Acquisition.Acquire(url, env); w.result == Pair(Str(a.text), Some(a.metadata))
    ensures var a := Acquisition.Acquire(url, env);
      var r := ProcessVideo(url, w);
      ((r.ErrorReply? && r.status == 429) <==> IsBlockingMessage(a.text))
      && (Acquisition.IsFailureMessage(a.text) ==>
            r.ErrorReply? && r.error == Str(a.text) && r.errorMetadata == Some(a.metadata))
  {
    var a := Acquisition.Acquire(url, env);
    Acquisition.TranscriptIsClean(url, env);
    Acquisition.AcquireMetadataKeys(url, env);
    ReplyForCleanOutcome(url, w, a.text, a.metadata);
  }

  /** `ProcessAcquired` for any text of the shape `get_transcript` returns. */
  lemma ReplyForCleanOutcome(url: string, w: VideoWorld, t: string, md: Dict)
    requires url != "" && IsCleanOutcome(t) && md.Keys == MetadataKeys
    requires w.result == Pair(Str(t), Some(md))
    ensures var r := ProcessVideo(url, w);
      ((r.ErrorReply? && r.status == 429) <==> IsBlockingMessage(t))
      && (Acquisition.IsFailureMessage(t) ==> r.ErrorReply? && r.error == Str(t) && r.errorMetadata == Some(md))
  {
    UnpackComplete(url, Str(t), md);
    CleanOutcomeStatus(t);
    ReplyForTranscript(url, w, t, md);
  }

  /** A string transcript gets a 429 reply exactly when its failure is a 429, and a failure is replied with the metadata. */
  lemma ReplyForTranscript(url: string, w: VideoWorld, t: string, md: Dict)
    requires url != "" && Unpack(url, w.result) == (Str(t), md)
    ensures var r := ProcessVideo(url, w);
      var f := TranscriptFailure(Str(t));
      ((r.ErrorReply? && r.status == 429) <==> (f.Some? && f.value.status == 429))
      && (f.Some? ==> r == ErrorReply(f.value.status, Str(f.value.message), Some(md)))
  {
    if TranscriptFailure(Str(t)).Some? {
      FailedTranscriptReply(url, w, w);
    }
  }
}
