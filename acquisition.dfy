/**
 * `get_transcript`: validate the URL, try the caption tracks yt-dlp lists
 * (Strategy A), then the transcript API (Strategy B), and otherwise report
 * the most specific failure — rate limited, then IP blocked, then no
 * captions — after looking the metadata up once more when the title is
 * still unknown. Every collaborator is an input: what yt-dlp reports, what
 * each caption URL answers, what the transcript API answers for an
 * identifier, and what the later metadata lookup reports.
 */
module Acquisition {
  import opened Strings
  import opened Values
  import opened MetadataMerge
  import opened ContentValidator
  import opened YouTubeUrl
  import opened CaptionTracks
  import opened CaptionDecoder
  import Duration

  /** Every failure message of `get_transcript` starts with this. */
  const ErrorPrefix: string := "Error: "
  const InvalidUrlError: string := ErrorPrefix + "Invalid YouTube URL"
  const RateLimitError: string := ErrorPrefix + "YouTube rate-limited the caption request. Please wait and try again."
  const IpBlockedError: string :=
    ErrorPrefix + "YouTube blocked transcript access for this IP. Provide a proxy or browser cookies and try again."
  const NoCaptionsError: string := ErrorPrefix + "No captions available for this video"

  /** The four fixed failure messages. */
  predicate IsFailureMessage(text: string) {
    text == InvalidUrlError || text == RateLimitError || text == IpBlockedError || text == NoCaptionsError
  }

  /** What the transcript API does for an identifier: chunk texts, or one of the exceptions it raises. */
  datatype ApiOutcome =
    | Chunks(texts: seq<string>)
    | TranscriptsDisabled
    | NoTranscriptFound
    | IpBlocked
    | RequestBlocked
    | ApiFailed

  /** The collaborators of one acquisition. */
  datatype Env = Env(
    info: Option<Info>,                // `extract_info` in Strategy A; None when it raised
    fetch: string -> HttpOutcome,      // `session.get` on a caption URL
    api: string -> ApiOutcome,         // the transcript API on an identifier
    lookup: Option<Info>)              // `fetch_video_metadata`; None when it gave nothing

  /** The calls an acquisition makes, in order. */
  datatype Event =
    | OpenSession                      // cookie path, proxy settings and HTTP session set up
    | ExtractInfo                      // yt-dlp asked for the video information
    | FetchTrack(url: string)          // one caption URL fetched
    | CallApi(id: string)              // the transcript API asked for an identifier
    | LookupMetadata                   // the metadata-only lookup
    | CloseSession                     // the session closed

  /** The result pair of `get_transcript`, with the calls made. */
  datatype Acquired = Acquired(text: string, metadata: Dict, events: seq<Event>)

  /** One `FetchTrack` per URL fetched, in order. */
  function Fetches(urls: seq<string>): (r: seq<Event>)
    ensures |r| == |urls| && forall i :: 0 <= i < |urls| ==> r[i] == FetchTrack(urls[i])
  {
    seq(|urls|, i requires 0 <= i < |urls| => FetchTrack(urls[i]))
  }

  /** The text Strategy B makes of the chunks: joined with single spaces, then stripped. */
  function ApiText(texts: seq<string>): string {
    Strip(Join(texts, " "))
  }

  /** Strategy A's text is taken when it is not blank and not a challenge page. */
  predicate TakesStrategyA(text: string) {
    text != "" && Strip(text) != "" && !IsSuspectContent(text)
  }

  /** Strategy B succeeds for an identifier when the API gives chunks whose text is not blank and not a challenge page. */
  predicate ApiSucceeds(outcome: ApiOutcome) {
    outcome.Chunks? && ApiText(outcome.texts) != "" && !IsSuspectContent(ApiText(outcome.texts))
  }

  /** The API's answer sets `ip_blocked`. */
  predicate ApiBlocked(outcome: ApiOutcome) {
    outcome.IpBlocked? || outcome.RequestBlocked?
  }

  /**
   * The metadata-only lookup, made only while the title is `None`; the
   * report is folded in when there is one. The flag says whether the lookup
   * was made.
   */
  function Backfill(md: Dict, lookup: Option<Info>): (r: (Dict, bool))
    ensures r.1 <==> Get(md, "title") == Null
    ensures !r.1 ==> r.0 == md
    ensures r.1 ==> r.0 == (if lookup.Some? then MergeInfo(md, lookup.value) else md)
  {
    if Get(md, "title") == Null then
      (if lookup.Some? && !IsEmptyInfo(lookup.value) then MergeInfo(md, lookup.value) else md, true)
    else (md, false)
  }

  function LookupEvents(looked: bool): seq<Event> {
    if looked then [LookupMetadata] else []
  }

  /** The end of every failure path: the lookup when the title is unknown, then the most specific message. */
  function Fail(env: Env, rateLimited: bool, ipBlocked: bool, md: Dict, events: seq<Event>): Acquired {
    var (md', looked) := Backfill(md, env.lookup);
    Acquired(if rateLimited then RateLimitError else if ipBlocked then IpBlockedError else NoCaptionsError,
             md', events + LookupEvents(looked) + [CloseSession])
  }

  /** Strategy B and what follows it, once Strategy A has given no usable text. */
  function AfterStrategyA(id: string, env: Env, rateLimited: bool, md: Dict, events: seq<Event>): Acquired {
    if id == "" then Fail(env, rateLimited, false, md, events)
    else
      var outcome := env.api(id);
      var events' := events + [CallApi(id)];
      if ApiSucceeds(outcome) then
        var (md', looked) := Backfill(md, env.lookup);
        Acquired(Strip(ApiText(outcome.texts)), md', events' + LookupEvents(looked) + [CloseSession])
      else Fail(env, rateLimited, ApiBlocked(outcome), md, events')
  }

  lemma AfterStrategyAFails(id: string, env: Env, rateLimited: bool, md: Dict, events: seq<Event>)
    ensures && (id == "" ==> AfterStrategyA(id, env, rateLimited, md, events) == Fail(env, rateLimited, false, md, events))
      && (id != "" && !ApiSucceeds(env.api(id)) ==>
            AfterStrategyA(id, env, rateLimited, md, events) ==
            Fail(env, rateLimited, ApiBlocked(env.api(id)), md, events + [CallApi(id)]))
  {
  }

  /** What Strategy A does for a URL, starting from the metadata shell. */
  function FirstStrategy(url: string, env: Env): StrategyResult {
    StrategyA(env.info, Shell(url), env.fetch)
  }

  /** The calls made before Strategy B: the session, the information request, the caption fetches. */
  function Prelude(url: string, env: Env): seq<Event> {
    [OpenSession, ExtractInfo] + Fetches(FirstStrategy(url, env).attempted)
  }

  /** `get_transcript(url)`. */
  function Acquire(url: string, env: Env): Acquired {
    if !IsValidYoutubeUrl(url) then Acquired(InvalidUrlError, Shell(url), [])
    else
      var a := FirstStrategy(url, env);
      if TakesStrategyA(a.text) then Acquired(Strip(a.text), a.metadata, Prelude(url, env) + [CloseSession])
      else AfterStrategyA(ExtractVideoId(url), env, a.rateLimited, a.metadata, Prelude(url, env))
  }

  // ---------------------------------------------------------------------------
  // Properties of the orchestration
  // ---------------------------------------------------------------------------

  /** Strategy B is reached: the URL is valid and Strategy A gave nothing usable. */
  predicate ReachesStrategyB(url: string, env: Env) {
    IsValidYoutubeUrl(url) && !TakesStrategyA(FirstStrategy(url, env).text)
  }

  /** Strategy B produces the transcript. */
  predicate StrategyBSucceeds(url: string, env: Env) {
    ExtractVideoId(url) != "" && ApiSucceeds(env.api(ExtractVideoId(url)))
  }

  /** The transcript API call, made only for a non-empty identifier. */
  function ApiEvents(id: string): seq<Event> {
    if id != "" then [CallApi(id)] else []
  }

  /**
   * After Strategy A, the API is called once for a non-empty identifier, then
   * the metadata lookup runs exactly when the title is `None`, then the
   * session closes; the metadata is what that lookup leaves.
   */
  lemma AfterStrategyAShape(id: string, env: Env, rateLimited: bool, md: Dict, events: seq<Event>)
    ensures AfterStrategyA(id, env, rateLimited, md, events).metadata == Backfill(md, env.lookup).0
    ensures AfterStrategyA(id, env, rateLimited, md, events).events ==
      events + ApiEvents(id) + LookupEvents(Backfill(md, env.lookup).1) + [CloseSession]
  {
    if id == "" {
      assert events + ApiEvents(id) == events;
    }
  }

  /** Strategy B's text, once the API gave a usable one, is the stripped join of its chunks. */
  lemma AfterStrategyASucceeds(id: string, env: Env, rateLimited: bool, md: Dict, events: seq<Event>)
    requires id != "" && ApiSucceeds(env.api(id))
    ensures AfterStrategyA(id, env, rateLimited, md, events).text == ApiText(env.api(id).texts)
  {
    StripIdempotent(Join(env.api(id).texts, " "));
  }

  /** Without a text from the API, the message is rate limited, else IP blocked, else no captions. */
  lemma AfterStrategyAFailsWith(id: string, env: Env, rateLimited: bool, md: Dict, events: seq<Event>)
    requires !(id != "" && ApiSucceeds(env.api(id)))
    ensures AfterStrategyA(id, env, rateLimited, md, events).text ==
      if rateLimited then RateLimitError
      else if id != "" && ApiBlocked(env.api(id)) then IpBlockedError
      else NoCaptionsError
  {
  }

  /** Reaching Strategy B, the acquisition is the rest of `get_transcript` after Strategy A. */
  lemma AcquireReachesB(url: string, env: Env)
    requires ReachesStrategyB(url, env)
    ensures Acquire(url, env) ==
      AfterStrategyA(ExtractVideoId(url), env, FirstStrategy(url, env).rateLimited, FirstStrategy(url, env).metadata, Prelude(url, env))
  {
  }

  /** Strategy A makes no API call and no metadata lookup. */
  lemma PreludeCalls(url: string, env: Env)
    ensures forall e :: e in Prelude(url, env) ==> !e.CallApi? && !e.LookupMetadata?
  {
    QuietFetches(FirstStrategy(url, env).attempted);
  }

  lemma QuietFetches(urls: seq<string>)
    ensures forall e :: e in [OpenSession, ExtractInfo] + Fetches(urls) ==> !e.CallApi? && !e.LookupMetadata?
  {
    var pre := [OpenSession, ExtractInfo] + Fetches(urls);
    forall e | e in pre
      ensures !e.CallApi? && !e.LookupMetadata?
    {
      var j :| 0 <= j < |pre| && pre[j] == e;
      if j >= 2 {
        assert pre[j] == Fetches(urls)[j - 2];
      }
    }
  }

  /**
   * The calls after Strategy A: the API call is present exactly for a
   * non-empty identifier and comes first, and the lookup happens once when
   * the title is `None` and never otherwise.
   */
  lemma CallsAfterStrategyA(id: string, env: Env, rateLimited: bool, md: Dict, pre: seq<Event>)
    requires forall e :: e in pre ==> !e.CallApi? && !e.LookupMetadata?
    ensures var events := AfterStrategyA(id, env, rateLimited, md, pre).events;
      |pre| < |events| && events[..|pre|] == pre
      && (CallApi(id) in events <==> id != "")
      && (id != "" ==> events[|pre|] == CallApi(id))
      && multiset(events)[LookupMetadata] == (if Get(md, "title") == Null then 1 else 0)
  {
    AfterStrategyAShape(id, env, rateLimited, md, pre);
    CallsAfterQuiet(pre, id, Backfill(md, env.lookup).1);
  }

  lemma CallsAfterQuiet(pre: seq<Event>, id: string, looked: bool)
    requires forall e :: e in pre ==> !e.CallApi? && !e.LookupMetadata?
    ensures var events := pre + ApiEvents(id) + LookupEvents(looked) + [CloseSession];
      |pre| < |events| && events[..|pre|] == pre
      && (CallApi(id) in events <==> id != "")
      && (id != "" ==> events[|pre|] == CallApi(id))
      && multiset(events)[LookupMetadata] == (if looked then 1 else 0)
  {
    var events := pre + ApiEvents(id) + LookupEvents(looked) + [CloseSession];
    assert events[..|pre|] == pre;
    assert multiset(events) == multiset(pre) + multiset(ApiEvents(id)) + multiset(LookupEvents(looked)) + multiset([CloseSession]);
    assert LookupMetadata !in multiset(pre) by {
      assert LookupMetadata !in pre;
    }
    if CallApi(id) in events {
      var j :| 0 <= j < |events| && events[j] == CallApi(id);
      if j < |pre| { assert events[j] in pre; }
    }
  }

  /**
   * A URL that fails validation gets the invalid-URL message and the
   * untouched metadata shell, and nothing is called: no session, no yt-dlp,
   * no caption fetch, no transcript API.
   */
  lemma InvalidUrlMakesNoCalls(url: string, env: Env)
    requires !IsValidYoutubeUrl(url)
    ensures Acquire(url, env).text == InvalidUrlError
    ensures Acquire(url, env).metadata == Shell(url)
    ensures Acquire(url, env).events == []
  {
  }

  /** Every text that is not a failure message is stripped, non-empty and not a challenge page. */
  lemma TranscriptIsClean(url: string, env: Env)
    ensures var t := Acquire(url, env).text;
      IsFailureMessage(t) || (t != "" && Strip(t) == t && !IsSuspectContent(t))
  {
    if IsValidYoutubeUrl(url) {
      var a := FirstStrategy(url, env);
      if TakesStrategyA(a.text) {
        StripIdempotent(a.text);
        StripKeepsClean(a.text);
      } else {
        var id := ExtractVideoId(url);
        AcquireReachesB(url, env);
        if id != "" && ApiSucceeds(env.api(id)) {
          AfterStrategyASucceeds(id, env, a.rateLimited, a.metadata, Prelude(url, env));
          StripIdempotent(Join(env.api(id).texts, " "));
        } else {
          AfterStrategyAFailsWith(id, env, a.rateLimited, a.metadata, Prelude(url, env));
        }
      }
    }
  }

  /** A usable Strategy A text is returned, stripped, without calling the transcript API or looking metadata up again. */
  lemma StrategyAWins(url: string, env: Env)
    requires IsValidYoutubeUrl(url) && TakesStrategyA(FirstStrategy(url, env).text)
    ensures Acquire(url, env).text == Strip(FirstStrategy(url, env).text)
    ensures Acquire(url, env).metadata == FirstStrategy(url, env).metadata
    ensures Acquire(url, env).events == Prelude(url, env) + [CloseSession]
  {
  }

  /**
   * Once Strategy A has given nothing usable, the transcript API is asked
   * exactly when the URL yields an identifier, whether or not Strategy A saw
   * a 429.
   */
  lemma ApiAskedIffIdentifier(url: string, env: Env)
    requires ReachesStrategyB(url, env)
    ensures CallApi(ExtractVideoId(url)) in Acquire(url, env).events <==> ExtractVideoId(url) != ""
  {
    var id := ExtractVideoId(url);
    var a := FirstStrategy(url, env);
    var pre := Prelude(url, env);
    assert Acquire(url, env) == AfterStrategyA(id, env, a.rateLimited, a.metadata, pre) by {
      AcquireReachesB(url, env);
    }
    assert forall e :: e in pre ==> !e.CallApi? && !e.LookupMetadata? by {
      PreludeCalls(url, env);
    }
    CallsAfterStrategyA(id, env, a.rateLimited, a.metadata, pre);
  }

  /** The API call comes right after the calls of Strategy A. */
  lemma ApiAskedAfterStrategyA(url: string, env: Env)
    requires ReachesStrategyB(url, env) && ExtractVideoId(url) != ""
    ensures |Prelude(url, env)| < |Acquire(url, env).events|
    ensures Acquire(url, env).events[..|Prelude(url, env)|] == Prelude(url, env)
    ensures Acquire(url, env).events[|Prelude(url, env)|] == CallApi(ExtractVideoId(url))
  {
    var id := ExtractVideoId(url);
    var a := FirstStrategy(url, env);
    var pre := Prelude(url, env);
    assert Acquire(url, env) == AfterStrategyA(id, env, a.rateLimited, a.metadata, pre) by {
      AcquireReachesB(url, env);
    }
    assert forall e :: e in pre ==> !e.CallApi? && !e.LookupMetadata? by {
      PreludeCalls(url, env);
    }
    CallsAfterStrategyA(id, env, a.rateLimited, a.metadata, pre);
  }

  /**
   * When Strategy B gives a transcript, it is returned stripped, after the
   * one metadata lookup that runs while the title is unknown; a 429 seen by
   * Strategy A does not stop this.
   */
  lemma StrategyBWins(url: string, env: Env)
    requires ReachesStrategyB(url, env) && StrategyBSucceeds(url, env)
    ensures var id := ExtractVideoId(url);
      var b := Backfill(FirstStrategy(url, env).metadata, env.lookup);
      Acquire(url, env).text == ApiText(env.api(id).texts)
      && Acquire(url, env).metadata == b.0
      && Acquire(url, env).events == Prelude(url, env) + [CallApi(id)] + LookupEvents(b.1) + [CloseSession]
  {
    var id := ExtractVideoId(url);
    var a := FirstStrategy(url, env);
    AcquireReachesB(url, env);
    AfterStrategyAShape(id, env, a.rateLimited, a.metadata, Prelude(url, env));
    AfterStrategyASucceeds(id, env, a.rateLimited, a.metadata, Prelude(url, env));
  }

  /**
   * With no transcript from either strategy, the message follows a fixed
   * priority: rate limited (a 429 in Strategy A), then IP blocked (the API
   * raised `IpBlocked` or `RequestBlocked`), then no captions. The metadata
   * lookup runs first, once, and only while the title is unknown.
   */
  lemma FailurePriority(url: string, env: Env)
    requires ReachesStrategyB(url, env) && !StrategyBSucceeds(url, env)
    ensures var id := ExtractVideoId(url);
      var a := FirstStrategy(url, env);
      var b := Backfill(a.metadata, env.lookup);
      Acquire(url, env).text ==
        (if a.rateLimited then RateLimitError
         else if id != "" && ApiBlocked(env.api(id)) then IpBlockedError
         else NoCaptionsError)
      && Acquire(url, env).metadata == b.0
      && Acquire(url, env).events == Prelude(url, env) + ApiEvents(id) + LookupEvents(b.1) + [CloseSession]
  {
    var id := ExtractVideoId(url);
    var a := FirstStrategy(url, env);
    AcquireReachesB(url, env);
    AfterStrategyAShape(id, env, a.rateLimited, a.metadata, Prelude(url, env));
    AfterStrategyAFailsWith(id, env, a.rateLimited, a.metadata, Prelude(url, env));
  }

  /** The metadata-only lookup runs at most once, and only when Strategy A left the title `None`. */
  lemma LookupAtMostOnce(url: string, env: Env)
    ensures multiset(Acquire(url, env).events)[LookupMetadata] <= 1
    ensures LookupMetadata in Acquire(url, env).events ==>
      ReachesStrategyB(url, env) && Get(FirstStrategy(url, env).metadata, "title") == Null
  {
    if IsValidYoutubeUrl(url) {
      var a := FirstStrategy(url, env);
      PreludeCalls(url, env);
      if !TakesStrategyA(a.text) {
        AcquireReachesB(url, env);
        CallsAfterStrategyA(ExtractVideoId(url), env, a.rateLimited, a.metadata, Prelude(url, env));
      } else {
        StrategyAWins(url, env);
        NoLookupInPrelude(Prelude(url, env));
      }
    }
  }

  lemma NoLookupInPrelude(pre: seq<Event>)
    requires forall e :: e in pre ==> !e.CallApi? && !e.LookupMetadata?
    ensures multiset(pre + [CloseSession])[LookupMetadata] == 0
  {
    assert multiset(pre + [CloseSession]) == multiset(pre) + multiset([CloseSession]);
    assert LookupMetadata !in pre;
    assert LookupMetadata !in multiset(pre);
  }

  /**
   * First writer wins across the whole acquisition: a title that the
   * information from Strategy A reports is the final title, whatever the
   * later lookup would report.
   */
  lemma FirstTitleIsKept(url: string, env: Env)
    requires IsValidYoutubeUrl(url) && env.info.Some? && Truthy(env.info.value.title)
    ensures Get(Acquire(url, env).metadata, "title") == env.info.value.title
  {
    ValidUrlIsNotEmpty(url);
    MergeIntoShell(url, env.info.value);
    var a := FirstStrategy(url, env);
    if TakesStrategyA(a.text) {
      StrategyAWins(url, env);
    } else {
      AcquireReachesB(url, env);
      AfterStrategyAShape(ExtractVideoId(url), env, a.rateLimited, a.metadata, Prelude(url, env));
    }
  }

  /**
   * A 429 on the first caption track, with a URL that yields no identifier,
   * ends in the rate-limit message without any API call; no other track is
   * fetched.
   */
  lemma FirstTrackRateLimitedNoId(url: string, env: Env)
    requires IsValidYoutubeUrl(url) && ExtractVideoId(url) == ""
    requires env.info.Some? && |Candidates(env.info.value)| > 0
    requires env.fetch(Candidates(env.info.value)[0]).Response?
    requires env.fetch(Candidates(env.info.value)[0]).status == 429
    ensures Acquire(url, env).text == RateLimitError
    ensures forall e :: e in Acquire(url, env).events ==> !e.CallApi?
    ensures Prelude(url, env) == [OpenSession, ExtractInfo, FetchTrack(Candidates(env.info.value)[0])]
  {
    FirstTrackRateLimited(env.info.value, Shell(url), env.fetch);
    assert ReachesStrategyB(url, env);
    FailurePriority(url, env);
    NoIdNoApiCall(url, env);
    PreludeOfFirstTrack(url, env);
  }

  /** Without an identifier, no API call is made once Strategy A has failed. */
  lemma NoIdNoApiCall(url: string, env: Env)
    requires ReachesStrategyB(url, env) && ExtractVideoId(url) == ""
    ensures forall e :: e in Acquire(url, env).events ==> !e.CallApi?
  {
    var a := FirstStrategy(url, env);
    var pre := Prelude(url, env);
    var looked := Backfill(a.metadata, env.lookup).1;
    assert forall e :: e in pre ==> !e.CallApi? by {
      PreludeCalls(url, env);
    }
    assert Acquire(url, env).events == pre + ApiEvents("") + LookupEvents(looked) + [CloseSession] by {
      FailurePriority(url, env);
    }
    NoApiCallWithoutId(pre, looked);
  }

  /** A first track that answers 429 is the only one fetched. */
  lemma PreludeOfFirstTrack(url: string, env: Env)
    requires env.info.Some? && |Candidates(env.info.value)| > 0
    requires FirstStrategy(url, env).attempted == [Candidates(env.info.value)[0]]
    ensures Prelude(url, env) == [OpenSession, ExtractInfo, FetchTrack(Candidates(env.info.value)[0])]
  {
    var u := Candidates(env.info.value)[0];
    assert Fetches([u]) == [FetchTrack(u)];
  }

  /** Without an identifier, the calls after Strategy A add no API call to a prelude that has none. */
  lemma NoApiCallWithoutId(pre: seq<Event>, looked: bool)
    requires forall e :: e in pre ==> !e.CallApi?
    ensures forall e :: e in pre + ApiEvents("") + LookupEvents(looked) + [CloseSession] ==> !e.CallApi?
  {
  }

  /**
   * A 429 in Strategy A does not stop the transcript API: Strategy B is
   * still reached (so the API is asked, by `ApiAskedIffIdentifier`), its
   * transcript wins, and only if it gives nothing usable is the rate-limit
   * message returned.
   */
  lemma RateLimitStillAsksApi(url: string, env: Env)
    requires IsValidYoutubeUrl(url) && FirstStrategy(url, env).rateLimited
    requires ExtractVideoId(url) != ""
    ensures ReachesStrategyB(url, env)
    ensures Acquire(url, env).text ==
      if ApiSucceeds(env.api(ExtractVideoId(url))) then ApiText(env.api(ExtractVideoId(url)).texts) else RateLimitError
  {
    assert ReachesStrategyB(url, env);
    TranscriptAfterStrategyA(url, env);
  }

  /** The text once Strategy B is reached: the API's text, or the failure message by priority. */
  lemma TranscriptAfterStrategyA(url: string, env: Env)
    requires ReachesStrategyB(url, env)
    ensures var id := ExtractVideoId(url);
      var a := FirstStrategy(url, env);
      Acquire(url, env).text ==
        if id != "" && ApiSucceeds(env.api(id)) then ApiText(env.api(id).texts)
        else if a.rateLimited then RateLimitError
        else if id != "" && ApiBlocked(env.api(id)) then IpBlockedError
        else NoCaptionsError
  {
    var id := ExtractVideoId(url);
    var a := FirstStrategy(url, env);
    AcquireReachesB(url, env);
    if id != "" && ApiSucceeds(env.api(id)) {
      AfterStrategyASucceeds(id, env, a.rateLimited, a.metadata, Prelude(url, env));
    } else {
      AfterStrategyAFailsWith(id, env, a.rateLimited, a.metadata, Prelude(url, env));
    }
  }

  /**
   * When Strategy A decodes its first candidate track to clean text, that
   * text is the transcript and the metadata keeps the requested URL.
   */
  lemma FirstTrackTranscript(url: string, env: Env)
    requires IsValidYoutubeUrl(url) && env.info.Some? && |Candidates(env.info.value)| > 0
    requires JudgeTrack(env.fetch(Candidates(env.info.value)[0])).Accept?
    ensures Acquire(url, env).text == JudgeTrack(env.fetch(Candidates(env.info.value)[0])).text
    ensures Get(Acquire(url, env).metadata, "url") == Str(url)
  {
    var info := env.info.value;
    var urls := Candidates(info);
    FirstTrackAccepted(info, Shell(url), env.fetch);
    DecodedTextIsStripped(env.fetch(urls[0]).body);
    ValidUrlIsNotEmpty(url);
    MergeIntoShell(url, info);
    StrategyAWins(url, env);
  }

  /** Strategy A stops at an accepted first candidate, with its text. */
  lemma FirstTrackAccepted(info: Info, md: Dict, fetch: string -> HttpOutcome)
    requires |Candidates(info)| > 0 && JudgeTrack(fetch(Candidates(info)[0])).Accept?
    ensures StrategyA(Some(info), md, fetch).text == JudgeTrack(fetch(Candidates(info)[0])).text
  {
    var urls := Candidates(info);
    StrategyAIsOneScan(info, md, fetch);
    assert Verdicts(fetch)(urls[0]) == JudgeTrack(fetch(urls[0]));
    ScanStopsAt([], urls[0], urls[1..], Verdicts(fetch));
    assert [] + [urls[0]] + urls[1..] == urls;
  }

  /**
   * With no caption tracks at all and an API that finds no transcript, the
   * result is the no-captions message, with the title, channel and duration
   * that yt-dlp reported.
   */
  lemma NoCaptionsAnywhere(url: string, env: Env)
    requires IsValidYoutubeUrl(url) && env.info.Some?
    requires env.info.value.automaticCaptions == map[] && env.info.value.subtitles == map[]
    requires ExtractVideoId(url) != "" ==> env.api(ExtractVideoId(url)) == NoTranscriptFound
    requires Truthy(env.info.value.title)
    ensures Acquire(url, env).text == NoCaptionsError
    ensures var md := Acquire(url, env).metadata;
      Get(md, "title") == env.info.value.title
      && Get(md, "channel") == (if Truthy(ChannelOf(env.info.value)) then ChannelOf(env.info.value) else Null)
      && Get(md, "duration") == OptStr(Duration.FormatDuration(env.info.value.duration))
  {
    var info := env.info.value;
    var a := FirstStrategy(url, env);
    NoTracksNoText(info, Shell(url), env.fetch);
    ValidUrlIsNotEmpty(url);
    MergeIntoShell(url, info);
    assert ReachesStrategyB(url, env);
    FailurePriority(url, env);
    assert Backfill(a.metadata, env.lookup).0 == a.metadata;
  }

  /** The lookup keeps a dictionary holding exactly the five metadata keys in that shape. */
  lemma BackfillKeepsKeys(md: Dict, lookup: Option<Info>)
    requires md.Keys == MetadataKeys
    ensures Backfill(md, lookup).0.Keys == MetadataKeys
  {
  }

  /** The metadata returned always holds exactly the five keys of the shell, whatever path was taken. */
  lemma AcquireMetadataKeys(url: string, env: Env)
    ensures Acquire(url, env).metadata.Keys == MetadataKeys
  {
    if IsValidYoutubeUrl(url) {
      var a := FirstStrategy(url, env);
      assert a.metadata.Keys == MetadataKeys;
      if !TakesStrategyA(a.text) {
        AcquireReachesB(url, env);
        AfterStrategyAShape(ExtractVideoId(url), env, a.rateLimited, a.metadata, Prelude(url, env));
        BackfillKeepsKeys(a.metadata, env.lookup);
      }
    }
  }

  // ---------------------------------------------------------------------------
  // The orchestrator with the metadata dictionary updated in place
  // ---------------------------------------------------------------------------

  /** `if metadata.get("title") is None:` fetch the metadata and fold it in. */
  method BackfillMetadata(md: Metadata, lookup: Option<Info>) returns (ghost looked: bool)
    modifies md
    ensures (md.entries, looked) == Backfill(old(md.entries), lookup)
  {
    looked := false;
    if Get(md.entries, "title") == Null {
      looked := true;
      var info := lookup;
      if info.Some? && !IsEmptyInfo(info.value) {
        md.UpdateFromInfo(info.value);
      }
    }
  }

  /** `get_transcript(url)`, returning the transcript or a failure message and the metadata dictionary. */
  method GetTranscript(url: string, env: Env) returns (text: string, md: Metadata, ghost events: seq<Event>)
    ensures text == Acquire(url, env).text
    ensures md.entries == Acquire(url, env).metadata
    ensures events == Acquire(url, env).events
  {
    md := new Metadata(url);
    if !IsValidYoutubeUrl(url) {
      return InvalidUrlError, md, [];
    }
    events := [OpenSession, ExtractInfo];
    ghost var a := StrategyA(env.info, Shell(url), env.fetch);
    var transcript, rateLimited;
    ghost var fetched;
    transcript, rateLimited, fetched := TranscriptViaYtDlp(env.info, md, env.fetch);
    assert transcript == a.text && rateLimited == a.rateLimited && md.entries == a.metadata && fetched == a.attempted;
    events := events + Fetches(fetched);
    if transcript != "" && Strip(transcript) != "" {
      if !IsSuspectContent(transcript) {
        return Strip(transcript), md, events + [CloseSession];
      }
    }
    var id := ExtractVideoId(url);
    text, events := TryTranscriptApi(id, env, rateLimited, md, events);
  }

  /**
   * The rest of `get_transcript` once Strategy A has given nothing usable:
   * the transcript API when the URL yields an identifier, then the failure
   * message with the metadata lookup.
   */
  method TryTranscriptApi(id: string, env: Env, rateLimited: bool, md: Metadata, ghost events0: seq<Event>)
    returns (text: string, ghost events: seq<Event>)
    modifies md
    ensures Acquired(text, md.entries, events) == AfterStrategyA(id, env, rateLimited, old(md.entries), events0)
  {
    events := events0;
    var ipBlocked := false;
    if id != "" {
      events := events + [CallApi(id)];
      var transcript, blocked := CallTranscriptApi(env.api(id));
      if transcript != "" {
        text, events := ReportSuccess(transcript, env, md, events);
        return;
      }
      ipBlocked := blocked;
    }
    AfterStrategyAFails(id, env, rateLimited, old(md.entries), events0);
    text, events := ReportFailure(env, rateLimited, ipBlocked, md, events);
  }

  /**
   * The `try` around `fetch_transcript_via_api`: a usable text (empty when
   * there is none), and whether the exception raised sets `ip_blocked`.
   */
  method CallTranscriptApi(outcome: ApiOutcome) returns (transcript: string, ipBlocked: bool)
    ensures transcript != "" <==> ApiSucceeds(outcome)
    ensures transcript != "" ==> transcript == ApiText(outcome.texts) && !IsSuspectContent(transcript)
    ensures ipBlocked <==> ApiBlocked(outcome)
  {
    transcript, ipBlocked := "", false;
    match outcome {
      case Chunks(texts) =>
        var t := ApiText(texts);
        if t != "" && !IsSuspectContent(t) {
          transcript := t;
        }
      case IpBlocked =>
        ipBlocked := true;
      case RequestBlocked =>
        ipBlocked := true;
      case TranscriptsDisabled =>
      case NoTranscriptFound =>
      case ApiFailed =>
    }
  }

  /** The success return of Strategy B, after the metadata lookup when the title is unknown. */
  method ReportSuccess(transcript: string, env: Env, md: Metadata, ghost events0: seq<Event>)
    returns (text: string, ghost events: seq<Event>)
    modifies md
    ensures text == Strip(transcript)
    ensures (md.entries, events) ==
      (Backfill(old(md.entries), env.lookup).0, events0 + LookupEvents(Backfill(old(md.entries), env.lookup).1) + [CloseSession])
  {
    ghost var looked := BackfillMetadata(md, env.lookup);
    events := events0 + LookupEvents(looked) + [CloseSession];
    text := Strip(transcript);
  }

  /** The three failure returns that end `get_transcript`, each after the metadata lookup. */
  method ReportFailure(env: Env, rateLimited: bool, ipBlocked: bool, md: Metadata, ghost events0: seq<Event>)
    returns (text: string, ghost events: seq<Event>)
    modifies md
    ensures Acquired(text, md.entries, events) == Fail(env, rateLimited, ipBlocked, old(md.entries), events0)
  {
    events := events0;
    if rateLimited {
      var looked := BackfillMetadata(md, env.lookup);
      events := events + LookupEvents(looked) + [CloseSession];
      return RateLimitError, events;
    }
    if ipBlocked {
      var looked := BackfillMetadata(md, env.lookup);
      events := events + LookupEvents(looked) + [CloseSession];
      return IpBlockedError, events;
    }
    var looked := BackfillMetadata(md, env.lookup);
    events := events + LookupEvents(looked) + [CloseSession];
    return NoCaptionsError, events;
  }
}
