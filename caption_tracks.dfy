/**
 * Strategy A of `get_transcript_via_yt_dlp`: after yt-dlp reports the video's
 * information, try each English caption track in a usable format, automatic
 * captions first and manual subtitles second, and return the first one that
 * decodes to clean text. An HTTP 429 on any track ends the strategy at once.
 */
module CaptionTracks {
  import opened Strings
  import opened Values
  import opened MetadataMerge
  import opened CaptionDecoder
  import opened ContentValidator

  /** What one `session.get(url)` produced: a response, or an exception (timeout, connection). */
  datatype HttpOutcome = Response(status: int, body: string) | FetchFailed

  /** The caption languages tried, in order. */
  const Languages: seq<string> := ["en", "en-US", "en-GB"]

  /** The track formats that are fetched at all. */
  const Formats: seq<string> := ["vtt", "srv1", "srv2", "srv3"]

  /** What one fetched track means for the strategy. */
  datatype Verdict = Accept(text: string) | Skip | Backpressure

  /** `raise_for_status()` raises for the 4xx and 5xx codes. */
  predicate IsHttpError(status: int) {
    400 <= status < 600
  }

  /**
   * The verdict on one fetch: 429 is backpressure; any other HTTP error, an
   * exception, an empty body or an HLS playlist is skipped; otherwise the
   * decoded text is accepted when it is non-empty and not a challenge page.
   */
  function JudgeTrack(outcome: HttpOutcome): (v: Verdict)
    ensures v.Backpressure? <==> outcome.Response? && outcome.status == 429
    ensures v.Accept? ==> v.text != "" && !IsSuspectContent(v.text)
    ensures v.Accept? ==> outcome.Response? && !IsHttpError(outcome.status) && v.text == DecodedText(outcome.body)
  {
    match outcome
    case FetchFailed => Skip
    case Response(status, body) =>
      if IsHttpError(status) then (if status == 429 then Backpressure else Skip)
      else if body == "" || StartsWith(body, "#EXTM3U") then Skip
      else
        var cleaned := DecodedText(body);
        if cleaned != "" && !IsSuspectContent(cleaned) then Accept(cleaned) else Skip
  }

  /** A track is fetched when its format is listed and it has a non-empty URL. */
  predicate IsCandidate(track: Track) {
    track.ext.Some? && track.ext.value in Formats && track.url.Some? && track.url.value != ""
  }

  /** The URLs of the candidate tracks, in list order. */
  function TrackUrls(tracks: seq<Track>): seq<string>
    decreases |tracks|
  {
    if |tracks| == 0 then []
    else
      var last := tracks[|tracks| - 1];
      TrackUrls(tracks[..|tracks| - 1]) + (if IsCandidate(last) then [last.url.value] else [])
  }

  /** The candidate URLs of one language, or none when the language is not offered. */
  function LanguageTrackUrls(captions: map<string, seq<Track>>, lang: string): seq<string> {
    if lang in captions then TrackUrls(captions[lang]) else []
  }

  /** The candidate URLs of `langs`, language by language. */
  function LanguageUrls(captions: map<string, seq<Track>>, langs: seq<string>): seq<string>
    decreases |langs|
  {
    if |langs| == 0 then []
    else LanguageUrls(captions, langs[..|langs| - 1]) + LanguageTrackUrls(captions, langs[|langs| - 1])
  }

  /** The result of trying a list of URLs: the accepted text, the 429 flag, and the URLs fetched. */
  datatype ScanResult = ScanResult(text: string, rateLimited: bool, attempted: seq<string>)

  /** The verdict on each URL, given what fetching it produces. */
  function Verdicts(fetch: string -> HttpOutcome): string -> Verdict {
    u => JudgeTrack(fetch(u))
  }

  /** Only non-empty texts are accepted, as `JudgeTrack` guarantees. */
  ghost predicate AcceptsOnlyText(verdict: string -> Verdict) {
    forall u :: verdict(u).Accept? ==> verdict(u).text != ""
  }

  lemma VerdictsAcceptOnlyText(fetch: string -> HttpOutcome)
    ensures AcceptsOnlyText(Verdicts(fetch))
  {
    forall u | Verdicts(fetch)(u).Accept?
      ensures Verdicts(fetch)(u).text != ""
    {
      assert Verdicts(fetch)(u) == JudgeTrack(fetch(u));
    }
  }

  /** Every URL in `urls` is skipped. */
  predicate AllSkipped(urls: seq<string>, verdict: string -> Verdict) {
    forall j :: 0 <= j < |urls| ==> verdict(urls[j]).Skip?
  }

  /**
   * Fetch the URLs in order until one is accepted or answers 429: the URLs
   * fetched are a prefix of `urls`, all but the last skipped, and the last
   * one decides the result.
   */
  function Scan(urls: seq<string>, verdict: string -> Verdict): (r: ScanResult)
    requires AcceptsOnlyText(verdict)
    ensures |r.attempted| <= |urls| && r.attempted == urls[..|r.attempted|]
    ensures r.attempted != [] ==> AllSkipped(r.attempted[..|r.attempted| - 1], verdict)
    ensures r.text != "" ==>
      (!r.rateLimited && |r.attempted| > 0 && verdict(r.attempted[|r.attempted| - 1]) == Accept(r.text))
    ensures r.rateLimited ==>
      (r.text == "" && |r.attempted| > 0 && verdict(r.attempted[|r.attempted| - 1]).Backpressure?)
    ensures r.text == "" && !r.rateLimited ==> r.attempted == urls && AllSkipped(urls, verdict)
    decreases |urls|
  {
    if |urls| == 0 then ScanResult("", false, [])
    else
      match verdict(urls[0])
      case Accept(t) => ScanResult(t, false, [urls[0]])
      case Backpressure => ScanResult("", true, [urls[0]])
      case Skip =>
        var rest := Scan(urls[1..], verdict);
        assert urls == [urls[0]] + urls[1..];
        ScanResult(rest.text, rest.rateLimited, [urls[0]] + rest.attempted)
  }

  /** Scanning two lists one after the other is scanning their concatenation. */
  lemma {:induction false} ScanAppend(a: seq<string>, b: seq<string>, verdict: string -> Verdict)
    requires AcceptsOnlyText(verdict)
    ensures var ra := Scan(a, verdict);
      Scan(a + b, verdict) ==
        if ra.text != "" || ra.rateLimited then ra
        else var rb := Scan(b, verdict); ScanResult(rb.text, rb.rateLimited, a + rb.attempted)
    decreases |a|
  {
    if |a| == 0 {
      assert a + b == b;
    } else {
      var ab := a + b;
      assert ab[0] == a[0];
      assert ab[1..] == a[1..] + b;
      if verdict(a[0]).Skip? {
        ScanAppend(a[1..], b, verdict);
        assert Scan(ab, verdict).attempted == [a[0]] + Scan(a[1..] + b, verdict).attempted;
        assert a == [a[0]] + a[1..];
      }
    }
  }

  /** When every URL up to `u` was skipped, the scan ends where `u` decides it. */
  lemma ScanStopsAt(prefix: seq<string>, u: string, rest: seq<string>, verdict: string -> Verdict)
    requires AcceptsOnlyText(verdict)
    requires AllSkipped(prefix, verdict) && !verdict(u).Skip?
    ensures Scan(prefix + [u] + rest, verdict) ==
      ScanResult(if verdict(u).Accept? then verdict(u).text else "",
                 verdict(u).Backpressure?, prefix + [u])
  {
    ScanAllSkipped(prefix, verdict);
    ScanAppend(prefix, [u] + rest, verdict);
    assert prefix + [u] + rest == prefix + ([u] + rest);
    assert ([u] + rest)[0] == u;
  }

  lemma {:induction false} ScanAllSkipped(urls: seq<string>, verdict: string -> Verdict)
    requires AcceptsOnlyText(verdict)
    requires AllSkipped(urls, verdict)
    ensures Scan(urls, verdict) == ScanResult("", false, urls)
    decreases |urls|
  {
    if |urls| > 0 {
      ScanAllSkipped(urls[1..], verdict);
      assert urls == [urls[0]] + urls[1..];
    }
  }

  lemma {:induction false} TrackUrlsAppend(a: seq<Track>, b: seq<Track>)
    ensures TrackUrls(a + b) == TrackUrls(a) + TrackUrls(b)
    decreases |b|
  {
    if |b| == 0 {
      assert a + b == a;
    } else {
      var b' := b[..|b| - 1];
      assert (a + b)[..|a + b| - 1] == a + b';
      assert (a + b)[|a + b| - 1] == b[|b| - 1];
      TrackUrlsAppend(a, b');
    }
  }

  lemma {:induction false} LanguageUrlsAppend(captions: map<string, seq<Track>>, a: seq<string>, b: seq<string>)
    ensures LanguageUrls(captions, a + b) == LanguageUrls(captions, a) + LanguageUrls(captions, b)
    decreases |b|
  {
    if |b| == 0 {
      assert a + b == a;
    } else {
      var b' := b[..|b| - 1];
      var last := LanguageTrackUrls(captions, b[|b| - 1]);
      assert LanguageUrls(captions, a + b) == LanguageUrls(captions, a + b') + last by {
        assert (a + b)[..|a + b| - 1] == a + b';
        assert (a + b)[|a + b| - 1] == b[|b| - 1];
      }
      LanguageUrlsAppend(captions, a, b');
      assert LanguageUrls(captions, b) == LanguageUrls(captions, b') + last;
      Associate(LanguageUrls(captions, a), LanguageUrls(captions, b'), last);
    }
  }

  lemma Associate<T>(x: seq<T>, y: seq<T>, z: seq<T>)
    ensures x + y + z == x + (y + z)
  {
  }

  /** The candidate list around language `li`. */
  lemma UrlsAroundLanguage(captions: map<string, seq<Track>>, li: nat)
    requires li < |Languages|
    ensures LanguageUrls(captions, Languages) ==
      LanguageUrls(captions, Languages[..li]) + LanguageTrackUrls(captions, Languages[li])
      + LanguageUrls(captions, Languages[li + 1..])
  {
    assert Languages == Languages[..li] + [Languages[li]] + Languages[li + 1..];
    LanguageUrlsAppend(captions, Languages[..li] + [Languages[li]], Languages[li + 1..]);
    LanguageUrlsAppend(captions, Languages[..li], [Languages[li]]);
    assert [Languages[li]][..0] == [];
  }

  /** The candidate URLs of one language around its candidate track `ti`. */
  lemma UrlsAroundTrack(tracks: seq<Track>, ti: nat)
    requires ti < |tracks| && IsCandidate(tracks[ti])
    ensures TrackUrls(tracks) == TrackUrls(tracks[..ti]) + [tracks[ti].url.value] + TrackUrls(tracks[ti + 1..])
  {
    assert tracks == tracks[..ti] + [tracks[ti]] + tracks[ti + 1..];
    TrackUrlsAppend(tracks[..ti] + [tracks[ti]], tracks[ti + 1..]);
    TrackUrlsAppend(tracks[..ti], [tracks[ti]]);
    assert [tracks[ti]][..0] == [];
  }

  /**
   * Where the candidate list stands when the loop reaches track `ti` of
   * language `li`: the URLs before it, the track's own URL, and the rest.
   */
  lemma UrlsAroundCandidate(captions: map<string, seq<Track>>, li: nat, tracks: seq<Track>, ti: nat)
    requires li < |Languages| && Languages[li] in captions && tracks == captions[Languages[li]]
    requires ti < |tracks| && IsCandidate(tracks[ti])
    ensures LanguageUrls(captions, Languages) ==
      LanguageUrls(captions, Languages[..li]) + TrackUrls(tracks[..ti]) + [tracks[ti].url.value]
      + (TrackUrls(tracks[ti + 1..]) + LanguageUrls(captions, Languages[li + 1..]))
  {
    UrlsAroundLanguage(captions, li);
    UrlsAroundTrack(tracks, ti);
    Regroup(LanguageUrls(captions, Languages[..li]), TrackUrls(tracks[..ti]),
      [tracks[ti].url.value], TrackUrls(tracks[ti + 1..]), LanguageUrls(captions, Languages[li + 1..]));
  }

  lemma Regroup<T>(a: seq<T>, t1: seq<T>, u: seq<T>, t2: seq<T>, b: seq<T>)
    ensures a + (t1 + u + t2) + b == a + t1 + u + (t2 + b)
  {
  }

  /** The candidate list of the first `ti + 1` tracks. */
  lemma TrackUrlsStep(tracks: seq<Track>, ti: nat)
    requires ti < |tracks|
    ensures TrackUrls(tracks[..ti + 1]) ==
      TrackUrls(tracks[..ti]) + (if IsCandidate(tracks[ti]) then [tracks[ti].url.value] else [])
  {
    assert tracks[..ti + 1][..ti] == tracks[..ti];
  }

  /** The URLs fetched so far, once track `ti` has been considered. */
  lemma TrackUrlsNext(before: seq<string>, tracks: seq<Track>, ti: nat)
    requires ti < |tracks|
    ensures before + TrackUrls(tracks[..ti]) + (if IsCandidate(tracks[ti]) then [tracks[ti].url.value] else []) ==
      before + TrackUrls(tracks[..ti + 1])
  {
    TrackUrlsStep(tracks, ti);
  }

  /** The candidate list of the first `li + 1` languages. */
  lemma LanguageUrlsStep(captions: map<string, seq<Track>>, li: nat)
    requires li < |Languages|
    ensures LanguageUrls(captions, Languages[..li + 1]) ==
      LanguageUrls(captions, Languages[..li]) + LanguageTrackUrls(captions, Languages[li])
  {
    assert Languages[..li + 1][..li] == Languages[..li];
  }

  /**
   * Fetching candidate track `ti` of language `li` after every earlier
   * candidate was skipped: either it is skipped too, or it decides the scan.
   */
  lemma CandidateStep(captions: map<string, seq<Track>>, fetch: string -> HttpOutcome,
                      li: nat, tracks: seq<Track>, ti: nat, before: seq<string>)
    requires li < |Languages| && Languages[li] in captions && tracks == captions[Languages[li]]
    requires ti < |tracks| && IsCandidate(tracks[ti])
    requires before == LanguageUrls(captions, Languages[..li]) + TrackUrls(tracks[..ti])
    requires AllSkipped(before, Verdicts(fetch))
    ensures var u := tracks[ti].url.value; var v := JudgeTrack(fetch(u));
      AcceptsOnlyText(Verdicts(fetch))
      && (v.Skip? ==> AllSkipped(before + [u], Verdicts(fetch)))
      && (!v.Skip? ==>
            (Scan(LanguageUrls(captions, Languages), Verdicts(fetch)) ==
             ScanResult(if v.Accept? then v.text else "", v.Backpressure?, before + [u])))
  {
    var u := tracks[ti].url.value;
    VerdictsAcceptOnlyText(fetch);
    assert Verdicts(fetch)(u) == JudgeTrack(fetch(u));
    UrlsAroundCandidate(captions, li, tracks, ti);
    if !JudgeTrack(fetch(u)).Skip? {
      ScanStopsAt(before, u, TrackUrls(tracks[ti + 1..]) + LanguageUrls(captions, Languages[li + 1..]), Verdicts(fetch));
    }
  }

  /**
   * The body of the inner loop once a track's URL is fetched: a 429 stops the
   * strategy, any other HTTP error, a failed request, an empty body or an HLS
   * playlist moves on, and a decoded text is kept when it is non-empty and not
   * a challenge page.
   */
  method FetchTrack(outcome: HttpOutcome) returns (verdict: Verdict)
    ensures verdict == JudgeTrack(outcome)
  {
    verdict := Skip;
    match outcome {
      case FetchFailed =>
      case Response(status, body) =>
        if IsHttpError(status) {
          if status == 429 {
            verdict := Backpressure;
          }
        } else if body != "" && !StartsWith(body, "#EXTM3U") {
          var cleaned := VttToText(body);
          if cleaned != "" && !IsSuspectContent(cleaned) {
            verdict := Accept(cleaned);
          }
        }
    }
  }

  /**
   * The loop over the languages and their tracks (one of the two blocks of
   * `get_transcript_via_yt_dlp`): it returns at the first accepted track or
   * at the first 429.
   */
  method TryCaptions(captions: map<string, seq<Track>>, fetch: string -> HttpOutcome)
    returns (text: string, rateLimited: bool, ghost fetched: seq<string>)
    ensures AcceptsOnlyText(Verdicts(fetch))
    ensures text == Scan(LanguageUrls(captions, Languages), Verdicts(fetch)).text
    ensures rateLimited == Scan(LanguageUrls(captions, Languages), Verdicts(fetch)).rateLimited
    ensures fetched == Scan(LanguageUrls(captions, Languages), Verdicts(fetch)).attempted
  {
    VerdictsAcceptOnlyText(fetch);
    fetched := [];
    var li := 0;
    while li < |Languages|
      invariant 0 <= li <= |Languages|
      invariant fetched == LanguageUrls(captions, Languages[..li]) && AllSkipped(fetched, Verdicts(fetch))
    {
      var lang := Languages[li];
      LanguageUrlsStep(captions, li);
      if lang in captions {
        var stop;
        stop, text, rateLimited, fetched := TryLanguage(captions, fetch, li, captions[lang]);
        if stop {
          return;
        }
      }
      li := li + 1;
    }
    assert Languages[..|Languages|] == Languages;
    ScanAllSkipped(fetched, Verdicts(fetch));
    return "", false, fetched;
  }

  /**
   * The inner loop, over the tracks of language `li`: `stop` says that it
   * returned from the strategy, with the strategy's result; otherwise every
   * candidate of the language was fetched and skipped.
   */
  method TryLanguage(captions: map<string, seq<Track>>, fetch: string -> HttpOutcome, li: nat, tracks: seq<Track>)
    returns (stop: bool, text: string, rateLimited: bool, ghost fetched: seq<string>)
    requires li < |Languages| && Languages[li] in captions && tracks == captions[Languages[li]]
    requires AcceptsOnlyText(Verdicts(fetch)) && AllSkipped(LanguageUrls(captions, Languages[..li]), Verdicts(fetch))
    ensures stop ==>
      text == Scan(LanguageUrls(captions, Languages), Verdicts(fetch)).text
      && rateLimited == Scan(LanguageUrls(captions, Languages), Verdicts(fetch)).rateLimited
    ensures stop ==> fetched == Scan(LanguageUrls(captions, Languages), Verdicts(fetch)).attempted
    ensures !stop ==> text == "" && !rateLimited
    ensures !stop ==>
      fetched == LanguageUrls(captions, Languages[..li]) + TrackUrls(tracks) && AllSkipped(fetched, Verdicts(fetch))
  {
    fetched := LanguageUrls(captions, Languages[..li]);
    var ti := 0;
    while ti < |tracks|
      invariant 0 <= ti <= |tracks|
      invariant fetched == LanguageUrls(captions, Languages[..li]) + TrackUrls(tracks[..ti])
      invariant AllSkipped(fetched, Verdicts(fetch))
    {
      var track := tracks[ti];
      TrackUrlsNext(LanguageUrls(captions, Languages[..li]), tracks, ti);
      if track.ext.Some? && track.ext.value in Formats {
        var url := track.url;
        if url.None? || url.value == "" {
          ti := ti + 1;
          continue;
        }
        var verdict := FetchTrack(fetch(url.value));
        CandidateStep(captions, fetch, li, tracks, ti, fetched);
        fetched := fetched + [url.value];
        if verdict.Backpressure? {
          return true, "", true, fetched;
        } else if verdict.Accept? {
          return true, verdict.text, false, fetched;
        }
      }
      ti := ti + 1;
    }
    assert tracks[..|tracks|] == tracks;
    return false, "", false, fetched;
  }

  // ---------------------------------------------------------------------------
  // The strategy as a whole
  // ---------------------------------------------------------------------------

  /** Every URL the strategy may fetch, in order: automatic captions, then manual subtitles. */
  function Candidates(info: Info): seq<string> {
    LanguageUrls(info.automaticCaptions, Languages) + LanguageUrls(info.subtitles, Languages)
  }

  /** What the strategy returns, the metadata it leaves, and the URLs it fetched. */
  datatype StrategyResult = StrategyResult(text: string, rateLimited: bool, metadata: Dict, attempted: seq<string>)

  /**
   * `get_transcript_via_yt_dlp`, given what `extract_info` reported (`None`
   * when it raised): fold the report into the metadata, then try the
   * automatic captions and, when they give nothing, the manual subtitles.
   */
  function StrategyA(info: Option<Info>, md: Dict, fetch: string -> HttpOutcome): (r: StrategyResult)
    ensures r.metadata == (if info.Some? then MergeInfo(md, info.value) else md)
    ensures info.None? ==> r.text == "" && !r.rateLimited && r.attempted == []
    ensures r.rateLimited ==> r.text == ""
  {
    match info
    case None => StrategyResult("", false, md, [])
    case Some(i) =>
      VerdictsAcceptOnlyText(fetch);
      var merged := MergeInfo(md, i);
      var auto := Scan(LanguageUrls(i.automaticCaptions, Languages), Verdicts(fetch));
      if auto.text != "" || auto.rateLimited then StrategyResult(auto.text, auto.rateLimited, merged, auto.attempted)
      else
        var subs := Scan(LanguageUrls(i.subtitles, Languages), Verdicts(fetch));
        StrategyResult(subs.text, subs.rateLimited, merged, LanguageUrls(i.automaticCaptions, Languages) + subs.attempted)
  }

  /** The strategy is one scan over all candidate URLs: the subtitles are reached only when every caption was skipped. */
  lemma StrategyAIsOneScan(info: Info, md: Dict, fetch: string -> HttpOutcome)
    ensures AcceptsOnlyText(Verdicts(fetch))
    ensures var r := StrategyA(Some(info), md, fetch);
      ScanResult(r.text, r.rateLimited, r.attempted) == Scan(Candidates(info), Verdicts(fetch))
  {
    VerdictsAcceptOnlyText(fetch);
    ScanAppend(LanguageUrls(info.automaticCaptions, Languages), LanguageUrls(info.subtitles, Languages), Verdicts(fetch));
  }

  /**
   * What the strategy promises: it fetches a prefix of the candidate URLs;
   * a text it returns is non-empty, not a challenge page, and the decoding
   * of the last URL fetched, which answered without an HTTP error; a 429 on
   * the last URL fetched is the only way to report rate limiting, and then
   * no later URL is fetched; when it returns nothing without a 429, every
   * candidate was fetched and skipped.
   */
  lemma StrategyAOutcome(info: Info, md: Dict, fetch: string -> HttpOutcome)
    ensures var r := StrategyA(Some(info), md, fetch);
      var n := |r.attempted|;
      n <= |Candidates(info)| && r.attempted == Candidates(info)[..n]
      && (n > 0 ==> AllSkipped(r.attempted[..n - 1], Verdicts(fetch)))
      && (r.text != "" ==>
            !r.rateLimited && !IsSuspectContent(r.text) && n > 0
            && fetch(r.attempted[n - 1]).Response? && !IsHttpError(fetch(r.attempted[n - 1]).status)
            && r.text == DecodedText(fetch(r.attempted[n - 1]).body))
      && (r.rateLimited ==>
            r.text == "" && n > 0 && fetch(r.attempted[n - 1]).Response? && fetch(r.attempted[n - 1]).status == 429)
      && (r.text == "" && !r.rateLimited ==> r.attempted == Candidates(info))
  {
    StrategyAIsOneScan(info, md, fetch);
    var r := StrategyA(Some(info), md, fetch);
    var n := |r.attempted|;
    if n > 0 {
      var u := r.attempted[n - 1];
      assert Verdicts(fetch)(u) == JudgeTrack(fetch(u));
    }
  }

  /**
   * When every candidate track answers with a challenge page (with any status
   * but 429), the strategy
   * tries them all and returns no text and no rate limit.
   */
  lemma ChallengePagesEverywhere(info: Info, md: Dict, fetch: string -> HttpOutcome)
    requires forall j :: 0 <= j < |Candidates(info)| ==>
      fetch(Candidates(info)[j]).Response? && fetch(Candidates(info)[j]).status != 429
      && IsSuspectContent(DecodedText(fetch(Candidates(info)[j]).body))
    ensures var r := StrategyA(Some(info), md, fetch);
      r.text == "" && !r.rateLimited && r.attempted == Candidates(info)
  {
    var urls := Candidates(info);
    forall j | 0 <= j < |urls|
      ensures Verdicts(fetch)(urls[j]).Skip?
    {
      assert Verdicts(fetch)(urls[j]) == JudgeTrack(fetch(urls[j]));
      ChallengePageIsSkipped(fetch(urls[j]));
    }
    StrategyAIsOneScan(info, md, fetch);
    ScanAllSkipped(urls, Verdicts(fetch));
  }

  /** A track whose body decodes to a challenge page is skipped, whatever its status. */
  lemma ChallengePageIsSkipped(outcome: HttpOutcome)
    requires outcome.Response? && outcome.status != 429 && IsSuspectContent(DecodedText(outcome.body))
    ensures JudgeTrack(outcome).Skip?
  {
  }

  /** A 429 on the first candidate ends the strategy before any other URL is fetched. */
  lemma FirstTrackRateLimited(info: Info, md: Dict, fetch: string -> HttpOutcome)
    requires |Candidates(info)| > 0
    requires fetch(Candidates(info)[0]).Response? && fetch(Candidates(info)[0]).status == 429
    ensures var r := StrategyA(Some(info), md, fetch);
      r.text == "" && r.rateLimited && r.attempted == [Candidates(info)[0]]
  {
    var urls := Candidates(info);
    assert Verdicts(fetch)(urls[0]) == JudgeTrack(fetch(urls[0]));
    StrategyAIsOneScan(info, md, fetch);
    ScanStopsAt([], urls[0], urls[1..], Verdicts(fetch));
    assert [] + [urls[0]] + urls[1..] == urls;
  }

  /** `get_transcript_via_yt_dlp` with the metadata dictionary updated in place. */
  method TranscriptViaYtDlp(info: Option<Info>, md: Metadata, fetch: string -> HttpOutcome)
    returns (text: string, rateLimited: bool, ghost fetched: seq<string>)
    modifies md
    ensures StrategyResult(text, rateLimited, md.entries, fetched) == StrategyA(info, old(md.entries), fetch)
  {
    if info.None? {
      return "", false, [];
    }
    var i := info.value;
    md.UpdateFromInfo(i);
    ghost var autoFetched;
    text, rateLimited, autoFetched := TryCaptions(i.automaticCaptions, fetch);
    if text != "" || rateLimited {
      return text, rateLimited, autoFetched;
    }
    ghost var subsFetched;
    text, rateLimited, subsFetched := TryCaptions(i.subtitles, fetch);
    fetched := autoFetched + subsFetched;
  }

  /** With no caption tracks at all, the strategy fetches nothing and gives no text and no 429. */
  lemma NoTracksNoText(info: Info, md: Dict, fetch: string -> HttpOutcome)
    requires info.automaticCaptions == map[] && info.subtitles == map[]
    ensures var r := StrategyA(Some(info), md, fetch); r.text == "" && !r.rateLimited && r.attempted == []
  {
    NoLanguageUrls(info.automaticCaptions, Languages);
    NoLanguageUrls(info.subtitles, Languages);
    VerdictsAcceptOnlyText(fetch);
  }

  /** A caption map without entries lists no candidate URL. */
  lemma {:induction false} NoLanguageUrls(captions: map<string, seq<Track>>, langs: seq<string>)
    requires captions == map[]
    ensures LanguageUrls(captions, langs) == []
    decreases |langs|
  {
    if |langs| > 0 {
      NoLanguageUrls(captions, langs[..|langs| - 1]);
    }
  }
}
