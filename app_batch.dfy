/**
 * The two list endpoints of the web application: `process_batch` (up to ten
 * video URLs) and `process_playlist` (the videos of a playlist, up to
 * twenty). Both run the same per-video steps as `process_video`, collect a
 * success or an error entry for each video, and stop early after a
 * rate-limit or IP-block failure. The collaborators of each video are given
 * as a `VideoWorld` per position; yt-dlp's playlist extraction is an input.
 */
module AppBatch {
  import opened Strings
  import opened Values
  import opened TextAgent
  import opened AppRules

  // ---------------------------------------------------------------------------
  // One video of a list
  // ---------------------------------------------------------------------------

  /**
   * An entry of `results` (`video_url`, `video_title`, `transcript`, `notes`,
   * `metadata`) or of `errors` (`video_url`, `error` and, unless an exception
   * was caught, `metadata`).
   */
  datatype Entry =
    | Processed(videoUrl: string, videoTitle: Val, transcript: string, notes: Notes, metadata: Dict)
    | Failed(videoUrl: string, error: Val, errorMetadata: Option<Dict>)

  /** The entry for one video, and whether the loop breaks after it. */
  datatype Outcome = Outcome(entry: Entry, stop: bool)

  const TranscriptMissing: string := "Failed to retrieve transcript"
  const NotesMissing: string := "Failed to generate notes"
  const NotesUnparsable: string := "Failed to parse AI response"

  /** The error entry of a transcript that is missing or is an error message, and whether it blocks. */
  function TranscriptError(url: string, t: Val, md: Dict): (r: Outcome)
    requires !Truthy(t) || IsTranscriptError(t)
    ensures r.entry.Failed? && r.entry.videoUrl == url && r.entry.errorMetadata == Some(md)
    ensures r.entry.error == Str(if IsTranscriptError(t) then Strip(t.s) else TranscriptMissing)
    ensures r.stop <==> IsTranscriptError(t) && IsBlockingMessage(Strip(t.s))
  {
    var message := if IsTranscriptError(t) then Strip(t.s) else TranscriptMissing;
    Outcome(Failed(url, Str(message), Some(md)), IsBlockingMessage(message))
  }

  /**
   * The body of the loop for the video at `position` (counted from 0), with
   * `prefix` + its 1-based number as the title pytube's failure falls back to.
   */
  function ProcessEntry(url: string, position: nat, prefix: string, w: VideoWorld): (r: Outcome)
    ensures r.entry.videoUrl == url
    // the loop breaks exactly after a rate-limit or IP-block transcript failure
    ensures r.stop <==> (var f := TranscriptFailure(Unpack(url, w.result).0); f.Some? && f.value.status == 429)
    ensures r.stop ==> r.entry.Failed? && r.entry.error.Str? && IsBlockingMessage(r.entry.error.s)
    // a success needs a usable string transcript, a non-empty answer and notes without an `error`
    ensures r.entry.Processed? <==>
      (var t := Unpack(url, w.result).0;
       TranscriptFailure(t).None? && t.Str? && w.summary.Reply? && w.summary.text != ""
       && (w.notes.NotesOther? || (w.notes.NotesObject? && w.notes.error.None?)))
  {
    var u := Unpack(url, w.result);
    var t := u.0;
    if !Truthy(t) || IsTranscriptError(t) then TranscriptError(url, t, u.1)
    else if !t.Str? then Outcome(Failed(url, Str(w.typeError), None), false)
    else Outcome(SummaryEntry(url, CleanTranscript(t.s), FillTitle(u.1, url, w.pytube, prefix + NatToString(position + 1)), w), false)
  }

  /**
   * From the summariser on, given the cleaned transcript and the metadata and
   * video title after the title step: an exception, an empty answer, an
   * answer that is not JSON and notes carrying an `error` are errors.
   */
  function SummaryEntry(url: string, cleaned: string, titled: (Dict, Val), w: VideoWorld): (e: Entry)
    ensures e.videoUrl == url
    ensures e.Processed? <==>
      w.summary.Reply? && w.summary.text != "" && (w.notes.NotesOther? || (w.notes.NotesObject? && w.notes.error.None?))
    ensures e.Processed? ==> e.transcript == cleaned && e.notes == w.notes && e.metadata == NotesMetadata(titled.0, w.notes)
    // only an exception leaves the metadata out of an error
    ensures e.Failed? ==> (e.errorMetadata.None? <==> w.summary.SummaryRaised?)
    ensures e.Failed? && e.errorMetadata.Some? ==> e.errorMetadata.value == titled.0
  {
    var (md1, videoTitle) := titled;
    match w.summary
    case SummaryRaised(m) => Failed(url, Str(m), None)
    case Reply(text) =>
      if text == "" then Failed(url, Str(NotesMissing), Some(md1))
      else match w.notes
        case NotJson => Failed(url, Str(NotesUnparsable), Some(md1))
        case NotesObject(Some(e), _) => Failed(url, e, Some(md1))
        case _ =>
          var md2 := NotesMetadata(md1, w.notes);
          Processed(url, Or(Get(md2, "title"), videoTitle), cleaned, w.notes, md2)
  }

  /** The title step does not depend on the fallback when pytube answers. */
  lemma FallbackUnusedWithPyTube(md: Dict, url: string, pytube: PyTube, a: string, b: string)
    requires pytube.PyTubeVideo?
    ensures FillTitle(md, url, pytube, a) == FillTitle(md, url, pytube, b)
  {
  }

  /** Two title steps lead to the same kind of entry, with the same error when it fails. */
  lemma SummaryEntryIgnoresTitle(url: string, cleaned: string, x: (Dict, Val), y: (Dict, Val), w: VideoWorld)
    ensures var a := SummaryEntry(url, cleaned, x, w);
      var b := SummaryEntry(url, cleaned, y, w);
      a.Processed? == b.Processed? && (a.Failed? ==> a.error == b.error)
  {
  }

  /**
   * The position and the prefix only name the title pytube's failure falls
   * back to: every other part of the entry, and the break, are the same.
   */
  lemma FallbackOnlyNamesTitle(url: string, i: nat, p: string, j: nat, q: string, w: VideoWorld)
    ensures var a := ProcessEntry(url, i, p, w).entry;
      var b := ProcessEntry(url, j, q, w).entry;
      ProcessEntry(url, i, p, w).stop == ProcessEntry(url, j, q, w).stop
      && a.Processed? == b.Processed?
      && (a.Failed? ==> a.error == b.error)
      && (a.Processed? ==> a.transcript == b.transcript && a.notes == b.notes)
      && (w.pytube.PyTubeVideo? ==> a == b)
  {
    var u := Unpack(url, w.result);
    if Truthy(u.0) && !IsTranscriptError(u.0) && u.0.Str? {
      var x := FillTitle(u.1, url, w.pytube, p + NatToString(i + 1));
      var y := FillTitle(u.1, url, w.pytube, q + NatToString(j + 1));
      SummaryEntryIgnoresTitle(url, CleanTranscript(u.0.s), x, y, w);
      if w.pytube.PyTubeVideo? {
        FallbackUnusedWithPyTube(u.1, url, w.pytube, p + NatToString(i + 1), q + NatToString(j + 1));
      }
    }
  }

  /**
   * A video of a list fails or succeeds exactly as `process_video` would with
   * the same collaborators, breaks the loop exactly where `process_video`
   * answers 429, and succeeds with the same transcript and notes; the
   * metadata is the same too unless pytube fails and the fallback titles
   * differ. An exception that escapes `process_video` becomes an error entry
   * without metadata.
   */
  lemma EntryAgreesWithProcessVideo(url: string, position: nat, prefix: string, w: VideoWorld)
    requires url != ""
    ensures var o := ProcessEntry(url, position, prefix, w);
      var r := ProcessVideo(url, w);
      (o.entry.Processed? <==> r.NotesReply?)
      && (o.stop <==> r.ErrorReply? && r.status == 429)
      && (o.entry.Processed? ==> r.NotesReply? && o.entry.transcript == r.transcript && o.entry.notes == r.notes)
      && (o.entry.Processed? && w.pytube.PyTubeVideo? ==> r.NotesReply? && o.entry.metadata == r.metadata)
      && (r.Crashed? ==> o.entry.Failed? && o.entry.error == Str(r.message) && o.entry.errorMetadata.None?)
  {
    var u := Unpack(url, w.result);
    var f := TranscriptFailure(u.0);
    if f.Some? {
      FailedTranscriptReply(url, w, w);
    } else if u.0.Str? {
      var fill := FillTitle(u.1, url, w.pytube, "Unknown Video");
      assert ProcessVideo(url, w) == SummarizeStep(CleanTranscript(u.0.s), fill.0, w);
    }
  }

  // ---------------------------------------------------------------------------
  // The loop over the videos
  // ---------------------------------------------------------------------------

  /** An error entry with the rate-limit or the IP-block message. */
  predicate BlockingFailure(e: Entry) {
    e.Failed? && e.error.Str? && IsBlockingMessage(e.error.s)
  }

  /** The body of the loop: the outcome for the video at a position, with that position's world. */
  function Step(worlds: nat -> VideoWorld, prefix: string): (string, nat) -> Outcome {
    (url: string, position: nat) => ProcessEntry(url, position, prefix, worlds(position))
  }

  /** The outcome of `step` for every item of the list, as if none broke the loop. */
  function StepOutcomes(urls: seq<string>, step: (string, nat) -> Outcome): (os: seq<Outcome>)
    ensures |os| == |urls|
  {
    seq(|urls|, k requires 0 <= k < |urls| => step(urls[k], k))
  }

  /** The outcome of every video of the list, as if none broke the loop. */
  function Outcomes(urls: seq<string>, worlds: nat -> VideoWorld, prefix: string): (os: seq<Outcome>)
    ensures |os| == |urls|
  {
    StepOutcomes(urls, Step(worlds, prefix))
  }

  /** Each outcome belongs to its URL, and only a blocking failure breaks the loop. */
  lemma OutcomesBlockOnlyWhenBlocked(urls: seq<string>, worlds: nat -> VideoWorld, prefix: string)
    ensures var os := Outcomes(urls, worlds, prefix);
      forall k :: 0 <= k < |os| ==> os[k].entry.videoUrl == urls[k] && (os[k].stop ==> BlockingFailure(os[k].entry))
  {
    var os := Outcomes(urls, worlds, prefix);
    forall k | 0 <= k < |os| ensures os[k].entry.videoUrl == urls[k] && (os[k].stop ==> BlockingFailure(os[k].entry)) {
      var o := ProcessEntry(urls[k], k, prefix, worlds(k));
      assert os[k] == o;
    }
  }

  /** The entries the loop collects from `os`: up to and including the first outcome that breaks it. */
  function Entries(os: seq<Outcome>): (r: seq<Entry>)
    ensures |r| <= |os|
    ensures |os| > 0 ==> |r| > 0
  {
    if |os| == 0 then []
    else if os[0].stop then [os[0].entry]
    else [os[0].entry] + Entries(os[1..])
  }

  /** The entries of the loop over `urls`. */
  function BatchEntries(urls: seq<string>, worlds: nat -> VideoWorld, prefix: string): seq<Entry> {
    Entries(Outcomes(urls, worlds, prefix))
  }

  /**
   * Entry `k` is the `k`-th outcome's, in order; no entry but the last
   * breaks the loop; and the loop ends early only when its last entry breaks
   * it.
   */
  lemma {:induction false} EntriesInOrder(os: seq<Outcome>)
    ensures var r := Entries(os);
      (forall k :: 0 <= k < |r| ==> r[k] == os[k].entry)
      && (forall k :: 0 <= k < |r| - 1 ==> !os[k].stop)
      && (|r| < |os| ==> os[|r| - 1].stop)
  {
    if |os| > 0 && !os[0].stop {
      var rest := os[1..];
      EntriesInOrder(rest);
      var r := Entries(os);
      assert r == [os[0].entry] + Entries(rest);
      forall k | 1 <= k < |r|
        ensures r[k] == os[k].entry
        ensures k < |r| - 1 ==> !os[k].stop
      {
        assert os[k] == rest[k - 1];
      }
      if |r| < |os| {
        assert os[|r| - 1] == rest[|r| - 2];
      }
    }
  }

  /** For the videos of a list: entry `k` is the `k`-th video's, and only a blocking failure ends the loop early. */
  lemma BatchEntriesInOrder(urls: seq<string>, worlds: nat -> VideoWorld, prefix: string)
    ensures var r := BatchEntries(urls, worlds, prefix);
      (forall k :: 0 <= k < |r| ==> r[k] == ProcessEntry(urls[k], k, prefix, worlds(k)).entry)
      && (forall k :: 0 <= k < |r| - 1 ==> !ProcessEntry(urls[k], k, prefix, worlds(k)).stop)
      && (|r| < |urls| ==> ProcessEntry(urls[|r| - 1], |r| - 1, prefix, worlds(|r| - 1)).stop)
  {
    EntriesInOrder(Outcomes(urls, worlds, prefix));
  }

  /** The `results` list: the successes, in order. */
  function Successes(es: seq<Entry>): (r: seq<Entry>)
    ensures |r| <= |es|
  {
    if |es| == 0 then []
    else (if es[0].Processed? then [es[0]] else []) + Successes(es[1..])
  }

  /** The `errors` list: the failures, in order. */
  function Failures(es: seq<Entry>): (r: seq<Entry>)
    ensures |r| <= |es|
  {
    if |es| == 0 then []
    else (if es[0].Failed? then [es[0]] else []) + Failures(es[1..])
  }

  /** `results` holds only successes and `errors` only failures, each in the order of the entries. */
  lemma {:induction false} ListsAreSorted(es: seq<Entry>)
    ensures forall e :: e in Successes(es) <==> e in es && e.Processed?
    ensures forall e :: e in Failures(es) <==> e in es && e.Failed?
  {
    if |es| > 0 {
      ListsAreSorted(es[1..]);
      assert es == [es[0]] + es[1..];
    }
  }

  /** Every entry is in exactly one of the two lists. */
  lemma {:induction false} SuccessesAndFailures(es: seq<Entry>)
    ensures |Successes(es)| + |Failures(es)| == |es|
  {
    if |es| > 0 {
      SuccessesAndFailures(es[1..]);
    }
  }

  /** One step of the loop, seen from the two lists. */
  lemma EntriesStep(os: seq<Outcome>)
    requires |os| > 0
    ensures var e := os[0].entry;
      var rest := if os[0].stop then [] else Entries(os[1..]);
      Successes(Entries(os)) == (if e.Processed? then [e] else []) + Successes(rest)
      && Failures(Entries(os)) == (if e.Failed? then [e] else []) + Failures(rest)
  {
    var rest := if os[0].stop then [] else Entries(os[1..]);
    assert Entries(os) == [os[0].entry] + rest;
    assert ([os[0].entry] + rest)[1..] == rest;
  }

  /**
   * The `for i, video_url in enumerate(video_urls)` loop: one entry per video
   * appended to `results` or to `errors`, and a `break` after a blocking
   * transcript failure.
   */
  method RunBatch(urls: seq<string>, worlds: nat -> VideoWorld, prefix: string) returns (results: seq<Entry>, errors: seq<Entry>)
    ensures results == Successes(BatchEntries(urls, worlds, prefix))
    ensures errors == Failures(BatchEntries(urls, worlds, prefix))
  {
    results, errors := RunLoop(urls, Step(worlds, prefix));
  }

  /** The loop itself, with `step` standing for its body. */
  method RunLoop(urls: seq<string>, step: (string, nat) -> Outcome) returns (results: seq<Entry>, errors: seq<Entry>)
    ensures results == Successes(Entries(StepOutcomes(urls, step)))
    ensures errors == Failures(Entries(StepOutcomes(urls, step)))
  {
    ghost var os := StepOutcomes(urls, step);
    results, errors := [], [];
    var i := 0;
    while i < |urls|
      invariant 0 <= i <= |urls|
      invariant results + Successes(Entries(os[i..])) == Successes(Entries(os))
      invariant errors + Failures(Entries(os[i..])) == Failures(Entries(os))
    {
      var o := step(urls[i], i);
      assert o == os[i];
      ghost var results0, errors0 := results, errors;
      if o.entry.Processed? {
        results := results + [o.entry];
      } else {
        errors := errors + [o.entry];
      }
      assert os[i..][0] == os[i] && os[i..][1..] == os[i + 1..];
      LoopStep(os, os[i..], results0, errors0, results, errors);
      if o.stop {
        break;
      }
      i := i + 1;
    }
    assert i == |urls| ==> os[i..] == [];
  }

  /** The two lists after the first entry of `tail`: complete when it breaks the loop, and otherwise short of the rest. */
  lemma LoopStep(all: seq<Outcome>, tail: seq<Outcome>, results: seq<Entry>, errors: seq<Entry>,
                 results': seq<Entry>, errors': seq<Entry>)
    requires |tail| > 0
    requires results + Successes(Entries(tail)) == Successes(Entries(all))
    requires errors + Failures(Entries(tail)) == Failures(Entries(all))
    requires results' == results + (if tail[0].entry.Processed? then [tail[0].entry] else [])
    requires errors' == errors + (if tail[0].entry.Failed? then [tail[0].entry] else [])
    ensures tail[0].stop ==> results' == Successes(Entries(all)) && errors' == Failures(Entries(all))
    ensures !tail[0].stop ==>
      results' + Successes(Entries(tail[1..])) == Successes(Entries(all))
      && errors' + Failures(Entries(tail[1..])) == Failures(Entries(all))
  {
    var e := tail[0].entry;
    EntriesStep(tail);
    var s0, f0 := if e.Processed? then [e] else [], if e.Failed? then [e] else [];
    var rest := if tail[0].stop then [] else Entries(tail[1..]);
    Regroup(results, results', s0, Successes(rest), Successes(Entries(tail)), Successes(Entries(all)));
    Regroup(errors, errors', f0, Failures(rest), Failures(Entries(tail)), Failures(Entries(all)));
    if tail[0].stop {
      assert Successes(rest) == [] && Failures(rest) == [];
      assert results' + [] == results' && errors' + [] == errors';
    }
  }

  /** Moving one entry from the pending part of a list to the part already built. */
  lemma Regroup(done: seq<Entry>, done': seq<Entry>, head: seq<Entry>, rest: seq<Entry>, pending: seq<Entry>, whole: seq<Entry>)
    requires pending == head + rest && done + pending == whole && done' == done + head
    ensures done' + rest == whole
  {
  }

  /** The `summary` object and the two lists of a finished loop. */
  datatype Report = Report(results: seq<Entry>, errors: seq<Entry>, total: nat, successful: nat, failed: nat)

  /** The report of the loop over `urls`. */
  function ReportOf(urls: seq<string>, worlds: nat -> VideoWorld, prefix: string): (r: Report)
    ensures r.total == |urls| && r.successful == |r.results| && r.failed == |r.errors|
    // one entry per video processed, and no more than there are videos
    ensures r.successful + r.failed == |BatchEntries(urls, worlds, prefix)| <= r.total
    ensures urls != [] ==> r.successful + r.failed > 0
  {
    var es := BatchEntries(urls, worlds, prefix);
    SuccessesAndFailures(es);
    Report(Successes(es), Failures(es), |urls|, |Successes(es)|, |Failures(es)|)
  }

  /**
   * Fewer entries than videos only after a blocking failure: the last error
   * is then the rate-limit or IP-block message.
   */
  lemma ShortReportEndsBlocked(urls: seq<string>, worlds: nat -> VideoWorld, prefix: string)
    requires var r := ReportOf(urls, worlds, prefix); r.successful + r.failed < r.total
    ensures var r := ReportOf(urls, worlds, prefix);
      r.failed > 0 && BlockingFailure(r.errors[r.failed - 1])
  {
    OutcomesBlockOnlyWhenBlocked(urls, worlds, prefix);
    ShortEntriesEndBlocked(Outcomes(urls, worlds, prefix));
  }

  /** When the loop ends early, the last error it collected is the blocking failure that broke it. */
  lemma ShortEntriesEndBlocked(os: seq<Outcome>)
    requires forall k :: 0 <= k < |os| ==> os[k].stop ==> BlockingFailure(os[k].entry)
    requires |Entries(os)| < |os|
    ensures var f := Failures(Entries(os)); |f| > 0 && BlockingFailure(f[|f| - 1])
  {
    EntriesInOrder(os);
    FailuresEndWithLast(Entries(os));
  }

  /** A list of entries that ends with a failure has that failure as its last error. */
  lemma {:induction false} FailuresEndWithLast(es: seq<Entry>)
    requires |es| > 0 && es[|es| - 1].Failed?
    ensures var f := Failures(es); |f| > 0 && f[|f| - 1] == es[|es| - 1]
  {
    if |es| == 1 {
      assert Failures(es) == [es[0]] + Failures([]);
    } else {
      var rest := es[1..];
      assert rest[|rest| - 1] == es[|es| - 1];
      FailuresEndWithLast(rest);
      LastOfAppended(if es[0].Failed? then [es[0]] else [], Failures(rest));
    }
  }

  /** Putting something in front of a non-empty list keeps its last element. */
  lemma LastOfAppended<T>(p: seq<T>, f: seq<T>)
    requires |f| > 0
    ensures |p + f| > 0 && (p + f)[|p + f| - 1] == f[|f| - 1]
  {
  }

  // ---------------------------------------------------------------------------
  // process_batch
  // ---------------------------------------------------------------------------

  const MaxBatch: nat := 10
  const UrlsRequired: string := "Video URLs list is required"
  const BatchTooLarge: string := "Maximum 10 videos per batch"

  /** The request's `video_urls`: a list of URLs, or anything else (missing: the empty list). */
  datatype UrlsField = UrlList(items: seq<string>) | NotAList

  datatype BatchResponse = BatchRejected(status: int, message: string) | BatchReport(report: Report)

  /** The reply of `process_batch`. */
  function BatchReply(field: UrlsField, worlds: nat -> VideoWorld): (r: BatchResponse)
    ensures r.BatchRejected? <==> field.NotAList? || |field.items| == 0 || |field.items| > MaxBatch
    ensures r.BatchRejected? ==>
      r.status == 400 && r.message == (if field.NotAList? || |field.items| == 0 then UrlsRequired else BatchTooLarge)
    ensures r.BatchReport? ==> r.report.total == |field.items| <= MaxBatch && r.report.successful + r.report.failed > 0
  {
    if field.NotAList? || |field.items| == 0 then BatchRejected(400, UrlsRequired)
    else if |field.items| > MaxBatch then BatchRejected(400, BatchTooLarge)
    else BatchReport(ReportOf(field.items, worlds, "Video "))
  }

  /** `process_batch()`. */
  method ProcessBatch(field: UrlsField, worlds: nat -> VideoWorld) returns (r: BatchResponse)
    ensures r == BatchReply(field, worlds)
  {
    if field.NotAList? || |field.items| == 0 {
      return BatchRejected(400, UrlsRequired);
    }
    if |field.items| > MaxBatch {
      return BatchRejected(400, BatchTooLarge);
    }
    var results, errors := RunBatch(field.items, worlds, "Video ");
    r := BatchReport(Report(results, errors, |field.items|, |results|, |errors|));
  }

  // ---------------------------------------------------------------------------
  // process_playlist
  // ---------------------------------------------------------------------------

  /** An entry of the flat playlist: falsy, without a `url`, or with one. */
  datatype PlaylistEntry = FalsyEntry | EntryWithoutUrl | EntryWithUrl(url: string)

  /**
   * What `extract_info` gives: an exception with its message, nothing usable
   * (falsy, or without `entries`), or the entries and the `title` if present.
   */
  datatype PlaylistInfo = ExtractRaised(message: string) | NoEntries | PlaylistData(entries: seq<PlaylistEntry>, title: Option<Val>)

  /** The URLs of the entries that have one, in order. */
  function EntryUrls(entries: seq<PlaylistEntry>): (r: seq<string>)
    ensures |r| <= |entries|
  {
    if |entries| == 0 then []
    else (if entries[0].EntryWithUrl? then [entries[0].url] else []) + EntryUrls(entries[1..])
  }

  /** A URL is collected exactly when some entry carries it. */
  lemma {:induction false} EntryUrlsFromEntries(entries: seq<PlaylistEntry>, u: string)
    ensures u in EntryUrls(entries) <==> EntryWithUrl(u) in entries
  {
    if |entries| > 0 {
      EntryUrlsFromEntries(entries[1..], u);
      assert entries == [entries[0]] + entries[1..];
    }
  }

  /** `for entry in playlist_info['entries']: if entry and 'url' in entry: video_urls.append(entry['url'])`. */
  method CollectUrls(entries: seq<PlaylistEntry>) returns (urls: seq<string>)
    ensures urls == EntryUrls(entries)
  {
    urls := [];
    for i := 0 to |entries|
      invariant urls + EntryUrls(entries[i..]) == EntryUrls(entries)
    {
      assert entries[i..][1..] == entries[i + 1..];
      if entries[i].EntryWithUrl? {
        urls := urls + [entries[i].url];
      }
    }
  }

  const MaxPlaylist: nat := 20
  const PlaylistUrlRequired: string := "Playlist URL is required"
  const ExtractFailed: string := "Failed to extract playlist information"
  const NoVideos: string := "No videos found in playlist"
  const PlaylistTooLarge: string := "Playlist too large. Processing first 20 videos out of "
  const PlaylistFailed: string := "Failed to process playlist: "
  const UnknownPlaylist: string := "Unknown Playlist"

  datatype PlaylistResponse =
    | PlaylistRejected(status: int, message: string)
    | PlaylistReport(playlistUrl: string, title: Val, report: Report)

  /** The reply of `process_playlist` for the request's `playlist_url` (`""` when missing). */
  function PlaylistReply(playlistUrl: string, info: PlaylistInfo, worlds: nat -> VideoWorld): (r: PlaylistResponse)
    ensures playlistUrl == "" ==> r == PlaylistRejected(400, PlaylistUrlRequired)
    ensures r.PlaylistRejected? ==> r.status == 400 || r.status == 500
    // videos are processed only for a playlist of one to twenty videos
    ensures r.PlaylistReport? <==>
      playlistUrl != "" && info.PlaylistData? && 0 < |EntryUrls(info.entries)| <= MaxPlaylist
    ensures r.PlaylistReport? ==>
      r.playlistUrl == playlistUrl && r.report.total == |EntryUrls(info.entries)|
      && r.title == (if info.title.Some? then info.title.value else Str(UnknownPlaylist))
    // a playlist that is too large is refused with the count of all its entries
    ensures playlistUrl != "" && info.PlaylistData? && |EntryUrls(info.entries)| > MaxPlaylist ==>
      r == PlaylistRejected(400, PlaylistTooLarge + NatToString(|info.entries|))
    ensures playlistUrl != "" && info.ExtractRaised? ==> r == PlaylistRejected(500, PlaylistFailed + info.message)
  {
    if playlistUrl == "" then PlaylistRejected(400, PlaylistUrlRequired)
    else match info
      case ExtractRaised(m) => PlaylistRejected(500, PlaylistFailed + m)
      case NoEntries => PlaylistRejected(500, ExtractFailed)
      case PlaylistData(entries, title) =>
        var urls := EntryUrls(entries);
        if |urls| == 0 then PlaylistRejected(500, NoVideos)
        else if |urls| > MaxPlaylist then PlaylistRejected(400, PlaylistTooLarge + NatToString(|entries|))
        else PlaylistReport(playlistUrl, if title.Some? then title.value else Str(UnknownPlaylist),
                            ReportOf(urls, worlds, "Playlist Video "))
  }

  /** `process_playlist()`. */
  method ProcessPlaylist(playlistUrl: string, info: PlaylistInfo, worlds: nat -> VideoWorld) returns (r: PlaylistResponse)
    ensures r == PlaylistReply(playlistUrl, info, worlds)
  {
    if playlistUrl == "" {
      return PlaylistRejected(400, PlaylistUrlRequired);
    }
    if info.ExtractRaised? {
      return PlaylistRejected(500, PlaylistFailed + info.message);
    }
    if info.NoEntries? {
      return PlaylistRejected(500, ExtractFailed);
    }
    var urls := CollectUrls(info.entries);
    if |urls| == 0 {
      return PlaylistRejected(500, NoVideos);
    }
    if |urls| > MaxPlaylist {
      return PlaylistRejected(400, PlaylistTooLarge + NatToString(|info.entries|));
    }
    var results, errors := RunBatch(urls, worlds, "Playlist Video ");
    var title := if info.title.Some? then info.title.value else Str(UnknownPlaylist);
    r := PlaylistReport(playlistUrl, title, Report(results, errors, |urls|, |results|, |errors|));
  }

  /**
   * A playlist is processed as a batch of its URLs would be, but for the
   * titles pytube's failures fall back to.
   */
  lemma PlaylistIsBatch(playlistUrl: string, info: PlaylistInfo, worlds: nat -> VideoWorld)
    requires PlaylistReply(playlistUrl, info, worlds).PlaylistReport?
    requires forall k: nat :: worlds(k).pytube.PyTubeVideo?
    ensures var urls := EntryUrls(info.entries);
      PlaylistReply(playlistUrl, info, worlds).report == ReportOf(urls, worlds, "Video ")
  {
    var urls := EntryUrls(info.entries);
    SamePrefixFree(urls, worlds, "Playlist Video ", "Video ");
  }

  /** With pytube answering for every video, the fallback prefix does not matter. */
  lemma SamePrefixFree(urls: seq<string>, worlds: nat -> VideoWorld, p: string, q: string)
    requires forall k: nat :: worlds(k).pytube.PyTubeVideo?
    ensures BatchEntries(urls, worlds, p) == BatchEntries(urls, worlds, q)
  {
    var a, b := Outcomes(urls, worlds, p), Outcomes(urls, worlds, q);
    forall k | 0 <= k < |urls| ensures a[k] == b[k] {
      FallbackOnlyNamesTitle(urls[k], k, p, k, q, worlds(k));
    }
    assert a == b;
  }
}
