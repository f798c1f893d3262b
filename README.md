# YouTube notes generator — transcript acquisition and request handling

This project models, in Dafny, the core of a small web service that turns
YouTube videos into study notes. The model covers three parts of that core.

- **Transcript acquisition** (`backend/video_agent.py`, `get_transcript`):
  1. Validate the URL against a fixed pattern.
  2. Strategy A: ask yt-dlp for the video's information. Fold the title,
     channel and duration into a metadata dictionary, where the first writer
     wins. Then fetch the English automatic captions and manual subtitles one
     track at a time. Decode each WebVTT body to plain text, skip challenge
     pages, and stop at the first HTTP 429.
  3. Strategy B: the transcript API, called only for a URL that yields a
     video identifier.
  4. Otherwise report the most specific failure: rate limited, then
     IP blocked, then no captions. Before that, look the metadata up once more
     while the title is still unknown.
- **Transcript cleaning** (`backend/text_agent.py`, `clean_transcript`):
  1. Remove `[...]` and `(...)` spans that close on their own line.
  2. Strip the text.
  3. Split it after sentence ends.
  4. Capitalise each sentence and join with single spaces.
- **The web handlers** (`backend/app.py`):
  - `process_video` maps a failed transcript to HTTP 429 or 500, fills in a
    missing title, and lays the summariser's metadata over the dictionary.
  - `process_batch` (at most 10 URLs) and `process_playlist` (at most 20
    videos) run the same per-video steps. They collect successes and errors
    in order and stop after a rate-limit or IP-block failure.

Python dictionaries are `map<string, Val>`, where `Val` covers `None`,
strings, integers and other values of known truthiness. Python's `a or b`,
`bool(v)` and `d.get(k)` are written out in `values.dfy`.

Every collaborator is an input to the model:

- what yt-dlp reports (`Option<Info>`; `None` means it raised);
- what each caption URL answers (`fetch: string -> HttpOutcome`);
- what the transcript API answers for an identifier (`ApiOutcome`);
- what the later metadata lookup reports;
- what pytube, the summariser and `json.loads` give, per video (`VideoWorld`).

`Acquisition.Acquire` is the specification of `get_transcript`. It records the
calls made, in order, in a trace. `Acquisition.GetTranscript` is the
imperative method, which updates a `MetadataMerge.Metadata` object in place.
The method is proved equal to the specification.

The same pattern holds elsewhere. Each loop of the source is a method proved
equal to a specification function:

- `ResolveCookiePath`, `VttToText`, `TryCaptions`, `OverlayNotesMetadata`,
  `CollectUrls` and `FindSegmentAfterMarker`;
- `RunBatch`, with its helper `RunLoop`.

The functions that call these loops are specified by the loops' specification
functions. For example, `ExtractVideoId` uses `SegmentAfterMarker`, the
specification of `FindSegmentAfterMarker`.

The properties of each part are lemmas about those functions.

Behaviours of the source that the proofs make explicit:

- After a 429 in Strategy A, the code still runs Strategy B. This follows
  `backend/video_agent.py` lines 178-224: the flag only picks the failure
  message (`Acquisition.RateLimitStillAsksApi`).
- The validator accepts URLs from which `extract_video_id` gets no identifier:
  - a URL without a scheme, such as `youtube.com/watch?v=...`
    (`YouTubeUrl.SchemelessValidUrlHasNoId`);
  - `https://www.youtu.be/<id>` (`YouTubeUrl.WwwShortLinkIsValid`,
    `YouTubeUrl.WwwShortLinkHasNoId`).

  Such URLs depend on Strategy A alone.
- A real transcript that happens to start with "error:" is treated as a
  failure by the handlers (`AppRules.AcquiredErrorIff`).
- In `process_batch`, line 184 repeats line 182. The repeat changes nothing
  (`AppRules.SetTitleIdempotent`).

## Model

| member | source | states |
|---|---|---|
| Duration.Pad2 | backend/video_agent.py:42-43 | `{n:02d}` gives at least two digits, exactly two below 100 |
| Duration.FormatDuration | backend/video_agent.py:30-43 | `None` exactly for a missing or negative input; the short `MM:SS` form exactly below one hour |
| Duration.FormatDurationReadsBack | backend/video_agent.py:30-43 | a non-negative duration renders as a clock string whose fields read back as hours, minutes < 60 and seconds < 60 adding up to the input, with no hours exactly below 3600 |
| Duration.ClockFields | backend/video_agent.py:39-40 | the two `divmod` steps give minutes and seconds below 60 that add back up to the total |
| Duration.DecimalValueOfPad2 | backend/video_agent.py:42-43 | a zero-padded field reads back as its number |
| YouTubeUrl.ValidIffMatchesPattern | backend/video_agent.py:46-49 | the recogniser accepts exactly the strings the URL pattern matches: an optional `http://` or `https://`, an optional `www.`, one of the hosts `youtube.com`, `youtu.be`, `youtube`, a `/`, and a non-empty tail |
| YouTubeUrl.IsValidYoutubeUrl | backend/video_agent.py:46-49 | `re.match` of the URL pattern, written as a recogniser: the scheme, `www.` and host prefixes are tried in turn and the tail must be non-empty; `ValidIffMatchesPattern` proves it equal to the pattern |
| YouTubeUrl.ShortLinkIsValid | backend/video_agent.py:46-49 | `https://youtu.be/<id>` passes validation for a non-empty identifier |
| YouTubeUrl.WwwShortLinkIsValid | backend/video_agent.py:46-49 | `https://www.youtu.be/<id>` passes validation too |
| YouTubeUrl.ValidUrlIsNotEmpty | backend/video_agent.py:46-49 | an accepted URL is never empty |
| YouTubeUrl.ShortLinkRoundTrip | backend/video_agent.py:246-247 | the identifier of `https://youtu.be/<id>` is `<id>` |
| YouTubeUrl.WatchRoundTrip | backend/video_agent.py:248-251 | the identifier of `https://www.youtube.com/watch?v=<id>` is `<id>` |
| YouTubeUrl.EmbedRoundTrip | backend/video_agent.py:252-256 | the identifier of `https://www.youtube.com/embed/<id>` is `<id>` |
| YouTubeUrl.WwwShortLinkHasNoId | backend/video_agent.py:242-259 | `https://www.youtu.be/<id>` yields `""`: its host is neither `youtu.be` nor a `youtube` host |
| YouTubeUrl.SchemelessHasNoId | backend/video_agent.py:242-259 | a URL that starts with letters and dots up to a `/` has no host for `urlparse`, so yields `""` |
| YouTubeUrl.SchemelessValidUrlHasNoId | backend/video_agent.py:242-259 | every URL the validator accepts without a scheme yields no identifier |
| YouTubeUrl.SanitizeKeepsHead | backend/video_agent.py:245 | `urlsplit`'s clean-up of controls, tabs and newlines keeps a leading host and its `/` in place |
| YouTubeUrl.ParseHttpsUrl | backend/video_agent.py:245 | how `urlparse` splits `https://<host><path>?<query>` into scheme, netloc, path and query |
| YouTubeUrl.FirstValueOfSinglePair | backend/video_agent.py:249-251 | `parse_qs` records a non-empty `v=<id>` as the first value of `v` |
| YouTubeUrl.EmbedSegments | backend/video_agent.py:253-256 | the segment after `embed` in `/embed/<id>` is `<id>` |
| YouTubeUrl.LastIndexOf | backend/video_agent.py:245 | `rfind`: the last occurrence, or -1 exactly when there is none |
| YouTubeUrl.NetlocEnd | backend/video_agent.py:245 | the netloc ends at the first `/`, `?` or `#` |
| YouTubeUrl.ExtractVideoId | backend/video_agent.py:242-259 | total, `""` when no identifier is found: the path after `youtu.be`, else on a `youtube` host the first `v` query value, else the segment after `embed` or `v`; the round-trip lemmas above state what it reads back |
| YouTubeUrl.ParseUrl | backend/video_agent.py:245 | `urlparse`: scheme up to the first `:`, netloc after `//` up to `/`, `?` or `#`, fragment dropped, `;params` removed from the path; `ParseHttpsUrl` states the split of a plain https URL |
| YouTubeUrl.Hostname | backend/video_agent.py:246-248 | `.hostname`: the netloc without user information and port, lower-cased, `None` when empty |
| YouTubeUrl.FirstQueryValue | backend/video_agent.py:249-251 | `parse_qs(...)['v'][0]`: the first pair with an `=` and a non-empty value whose name, once `+` becomes a space and `%XX` escapes are unquoted, matches; its value decoded the same way; `FirstValueOfPair` states it |
| YouTubeUrl.SegmentAfterMarker | backend/video_agent.py:253-256 | the `enumerate` loop: the segment right after the first `embed` or `v` segment that has a successor; `EmbedSegments` states it for the embed path |
| YouTubeUrl.FindSegmentAfterMarker | backend/video_agent.py:253-256 | the `for i, part in enumerate(parts)` loop, returning at the first marker with a successor, equals `SegmentAfterMarker` |
| YouTubeUrl.SegmentAfterMarkerIsFirst | backend/video_agent.py:253-256 | a segment is found exactly when an `embed` or `v` segment other than the last occurs, and it is the successor of the first such marker |
| YouTubeUrl.Unquote | backend/video_agent.py:249 | `unquote` of ASCII escapes never lengthens the text; `UnquoteEscapeAll` and `UnquoteOfPlain` state what it decodes |
| YouTubeUrl.UnquoteOfPlain | backend/video_agent.py:249 | text without `%` is unchanged by `unquote` |
| YouTubeUrl.UnquoteEscapeAll | backend/video_agent.py:249 | unquoting the `%XX` form of an ASCII text gives the text back |
| YouTubeUrl.FirstValueOfPair | backend/video_agent.py:249-251 | a query of one `name=value` pair gives, for the decoded name, the decoded value |
| YouTubeUrl.EscapedNameIsDecoded | backend/video_agent.py:249-251 | the escaped name `%76` is recognised as `v` |
| YouTubeUrl.EscapedValueIsDecoded | backend/video_agent.py:249-251 | a value written in `%XX` escapes is read back as the ASCII text it encodes |
| YouTubeUrl.EscapedWatchRoundTrip | backend/video_agent.py:242-251 | `https://www.youtube.com/watch?v=<escaped text>` yields the text, for any non-empty ASCII text |
| ContentValidator.SuspectIffPhraseOccurs | backend/video_agent.py:13-19 | a text is suspect exactly when one of the five phrases occurs in it, in any letter case |
| ContentValidator.IsSuspectContent | backend/video_agent.py:52-54 | the phrase test on the lower-cased text; `SuspectIffPhraseOccurs` states it as an occurrence at some index |
| ContentValidator.SuspectIgnoresCase | backend/video_agent.py:52-54 | upper-casing a text does not change the verdict |
| ContentValidator.SuspectInContext | backend/video_agent.py:52-54 | a suspect text stays suspect inside any larger text |
| ContentValidator.StripKeepsClean | backend/video_agent.py:184-189 | a text that passes the check still passes once stripped, so the stripped transcript returned is clean |
| ProxySettings.FirstCookiePath | backend/video_agent.py:62-71 | a path found exists |
| ProxySettings.ResolveCookiePath | backend/video_agent.py:62-71 | the loop returns the specification's path |
| ProxySettings.CookiePathIsFirstExisting | backend/video_agent.py:62-71 | `None` exactly when every variable is unset or names a missing file; otherwise the expanded path of the first variable that is set and exists |
| ProxySettings.BuildProxySettings | backend/video_agent.py:74-88 | proxies exactly when a variable is set and the pair is accepted; specific variables beat the shared one; both schemes get a non-empty URL, a missing one borrowing the other; dictionary and configuration present together or not at all |
| ProxySettings.SharedProxyEverywhere | backend/video_agent.py:74-85 | a lone `YOUTUBE_PROXY` serves both schemes, for `requests`, yt-dlp and the API |
| ProxySettings.YtDlpPrefersHttps | backend/video_agent.py:285-286 | yt-dlp gets the HTTPS proxy when there is one, else the HTTP proxy |
| MetadataMerge.Shell | backend/video_agent.py:159-165 | the starting dictionary has exactly the five keys, all `None` but the URL |
| MetadataMerge.MergeInfo | backend/video_agent.py:110-124 | an empty report changes nothing; only the five keys are written, others kept; the raw duration follows the latest report; a set URL is kept, an unset one is taken from `webpage_url`, then `original_url` |
| MetadataMerge.MergeInfoFills | backend/video_agent.py:114-124 | first writer wins on title, channel and formatted duration; an unset field is filled from a truthy reported value (`uploader` before `channel`) and only from one |
| MetadataMerge.MergeInfoIdempotent | backend/video_agent.py:110-124 | folding the same report in twice is folding it in once |
| MetadataMerge.MergeSettles | backend/video_agent.py:110-124 | after one merge, everything the report would write is already there |
| MetadataMerge.SettledIsFixed | backend/video_agent.py:110-124 | merging a report into a dictionary settled for it changes nothing |
| MetadataMerge.MergeIntoShell | backend/video_agent.py:110-124 | from the shell, the URL is kept and a reported title, channel and duration are taken over, still with exactly the five keys |
| MetadataMerge.Metadata.constructor | backend/video_agent.py:159-165 | the object starts as the shell |
| MetadataMerge.Metadata.UpdateFromInfo | backend/video_agent.py:110-124 | the in-place update leaves the merged dictionary |
| CaptionDecoder.StripTags | backend/video_agent.py:369 | removing tags never lengthens a line |
| CaptionDecoder.StripTagsKeepsChars | backend/video_agent.py:369 | every character of the result comes from the line |
| CaptionDecoder.StripTagsIsTagFree | backend/video_agent.py:369 | no `<...>` tag is left |
| CaptionDecoder.StripTagsOfTagFree | backend/video_agent.py:369 | a line without tags comes through unchanged |
| CaptionDecoder.StripTagsIdempotent | backend/video_agent.py:369 | removing tags twice is removing them once |
| CaptionDecoder.CaptionLines | backend/video_agent.py:368-378 | the cue texts the loop keeps, in order: tags removed and stripped, then blank, `WEBVTT`, `-->` and digit-only lines dropped; `CaptionLinesAreClean` and `CaptionLinesOfPlain` state what they are |
| CaptionDecoder.DecodedText | backend/video_agent.py:366-379 | `vtt_to_text`: the kept lines of `splitlines()` joined with single spaces; `VttToText`, `DecodePlainText` and `DecodedTextIsStripped` state its properties |
| CaptionDecoder.CaptionLinesStep | backend/video_agent.py:368-378 | a line is kept exactly when its cue text is not blank, not the header, not a timing line and not a cue number |
| CaptionDecoder.VttToText | backend/video_agent.py:366-379 | the loop over `splitlines()` returns the kept lines joined with single spaces |
| CaptionDecoder.CaptionLinesAreClean | backend/video_agent.py:368-378 | every kept line passes the four filters, has no tag, no surrounding whitespace and no line break |
| CaptionDecoder.DecodedLinesAreClean | backend/video_agent.py:366-379 | the same for the lines of a whole document |
| CaptionDecoder.CaptionLinesOfPlain | backend/video_agent.py:368-378 | of markup-free lines that are neither a header, a cue timing nor a cue number, the decoder keeps exactly the non-blank ones, stripped, in order |
| CaptionDecoder.DecodePlainText | backend/video_agent.py:366-379 | such plain text decodes to its non-blank lines, stripped of surrounding whitespace, joined with single spaces |
| CaptionDecoder.DecodedTextIsStripped | backend/video_agent.py:366-379 | the decoded text has no whitespace at its ends |
| CaptionTracks.JudgeTrack | backend/video_agent.py:309-327 | a 429 exactly means backpressure; an accepted text is non-empty, not a challenge page, and the decoding of a response without an HTTP error |
| CaptionTracks.FetchTrack | backend/video_agent.py:307-327 | the fetch-and-decode step gives the verdict of `JudgeTrack` |
| CaptionTracks.Scan | backend/video_agent.py:300-327 | the URLs fetched are a prefix, all but the last skipped; a text ends with an accepted URL, a 429 with a 429, and nothing with every URL fetched and skipped |
| CaptionTracks.ScanAppend | backend/video_agent.py:296-360 | trying two lists in turn is trying their concatenation: the second runs only when the first gave neither text nor 429 |
| CaptionTracks.ScanStopsAt | backend/video_agent.py:312-322 | after skipped URLs, the first URL that is not skipped decides the result |
| CaptionTracks.TryLanguage | backend/video_agent.py:302-327 | the inner loop either returns the strategy's result or leaves every candidate of the language fetched and skipped |
| CaptionTracks.TryCaptions | backend/video_agent.py:300-327 | the loop over languages and tracks returns the result of scanning the candidate URLs in order |
| CaptionTracks.CandidateStep | backend/video_agent.py:302-327 | fetching a candidate after skipped ones either skips it too or decides the whole scan |
| CaptionTracks.StrategyA | backend/video_agent.py:262-363 | the metadata is the report merged in (unchanged when `extract_info` raised, with no text); a 429 comes with no text |
| CaptionTracks.Candidates | backend/video_agent.py:300-358 | the track URLs in fetch order: the automatic captions for `en`, `en-US`, `en-GB`, then the manual subtitles for the same languages, usable formats with a URL only; `StrategyAIsOneScan` states that Strategy A scans exactly this list |
| CaptionTracks.StrategyAIsOneScan | backend/video_agent.py:296-360 | subtitles are tried only when every automatic caption was skipped: the strategy is one scan over captions then subtitles |
| CaptionTracks.StrategyAOutcome | backend/video_agent.py:262-363 | a prefix of the candidates is fetched; a returned text is clean and decoded from the last URL fetched, which had no HTTP error; a 429 only on the last URL fetched; no result means every candidate was fetched and skipped |
| CaptionTracks.ChallengePagesEverywhere | backend/video_agent.py:312-317 | when every candidate is a challenge page (any status but 429), all are tried and nothing is returned |
| CaptionTracks.ChallengePageIsSkipped | backend/video_agent.py:315-317 | a challenge page is skipped whatever its status, except 429 |
| CaptionTracks.FirstTrackRateLimited | backend/video_agent.py:319-322 | a 429 on the first candidate ends the strategy with only that URL fetched |
| CaptionTracks.NoTracksNoText | backend/video_agent.py:297-363 | with no caption tracks, nothing is fetched, and no text and no 429 result |
| CaptionTracks.TranscriptViaYtDlp | backend/video_agent.py:262-363 | the imperative strategy, updating the metadata object in place, matches `StrategyA` |
| Acquisition.Backfill | backend/video_agent.py:203-206 | the lookup is made exactly when the title is `None`, and its report, if any, is merged in |
| Acquisition.Acquire | backend/video_agent.py:155-239 | `get_transcript`: the text, the metadata and the calls made in order; `GetTranscript` implements it and the lemmas below state its properties |
| Acquisition.AfterStrategyA | backend/video_agent.py:193-237 | what follows a Strategy A without usable text: the API call when an identifier is extracted, its text when it succeeds and is clean, else the failure tail; `AfterStrategyAShape` and `AfterStrategyAFailsWith` state it |
| Acquisition.Fail | backend/video_agent.py:218-237 | a failure path: one lookup while the title is unknown, then the rate-limit, IP-blocked or no-captions message in that priority; `FailurePriority` states the priority |
| Acquisition.BackfillMetadata | backend/video_agent.py:220-223 | the in-place lookup leaves what `Backfill` gives |
| Acquisition.GetTranscript | backend/video_agent.py:155-239 | the method returns the text, the metadata and the calls of `Acquire` |
| Acquisition.TryTranscriptApi | backend/video_agent.py:193-237 | Strategy B and the failure returns, as specified after Strategy A |
| Acquisition.CallTranscriptApi | backend/video_agent.py:193-217 | a text exactly when the API gives a usable one (the stripped join of its chunks, not a challenge page); `ip_blocked` exactly for `IpBlocked`/`RequestBlocked` |
| Acquisition.ReportSuccess | backend/video_agent.py:203-207 | the API's text is returned stripped, after the lookup when the title is unknown, then the session closes |
| Acquisition.ReportFailure | backend/video_agent.py:219-237 | the three failure returns, each after the lookup |
| Acquisition.AfterStrategyAShape | backend/video_agent.py:193-239 | after Strategy A: at most one API call, then the lookup exactly when the title is `None`, then the session closes |
| Acquisition.AfterStrategyAFailsWith | backend/video_agent.py:219-237 | without an API text, the message is rate limited, else IP blocked, else no captions |
| Acquisition.InvalidUrlMakesNoCalls | backend/video_agent.py:167-169 | an invalid URL gets the invalid-URL message and the untouched shell, and nothing is called |
| Acquisition.TranscriptIsClean | backend/video_agent.py:155-239 | every returned text is a failure message or a non-empty, stripped, non-suspect transcript |
| Acquisition.StrategyAWins | backend/video_agent.py:184-189 | a usable Strategy A text is returned stripped, with no API call and no lookup |
| Acquisition.ApiAskedIffIdentifier | backend/video_agent.py:193-197 | once Strategy A fails, the API is asked exactly when the URL yields an identifier |
| Acquisition.ApiAskedAfterStrategyA | backend/video_agent.py:193-197 | the API call comes right after the calls of Strategy A |
| Acquisition.StrategyBWins | backend/video_agent.py:193-207 | a usable API text is returned, after the one lookup made while the title is unknown, even after a 429 |
| Acquisition.FailurePriority | backend/video_agent.py:219-237 | with no transcript: rate limited, then IP blocked, then no captions, after one lookup only while the title is unknown |
| Acquisition.TranscriptAfterStrategyA | backend/video_agent.py:193-237 | after Strategy A: the API text, else the failure message by priority |
| Acquisition.RateLimitStillAsksApi | backend/video_agent.py:178-224 | a 429 in Strategy A does not stop Strategy B: its text wins, and the rate-limit message comes only without one |
| Acquisition.LookupAtMostOnce | backend/video_agent.py:203-235 | the metadata lookup runs at most once, only after Strategy A failed with the title `None` |
| Acquisition.FirstTitleIsKept | backend/video_agent.py:113-116 | a title reported by Strategy A's information is the final title |
| Acquisition.FirstTrackRateLimitedNoId | backend/video_agent.py:178-224 | a 429 on the first track of a URL without an identifier ends in the rate-limit message, one fetch and no API call |
| Acquisition.NoIdNoApiCall | backend/video_agent.py:194-195 | without an identifier the API is never called |
| Acquisition.FirstTrackTranscript | backend/video_agent.py:178-189 | an accepted first track is the transcript, and the metadata keeps the requested URL |
| Acquisition.FirstTrackAccepted | backend/video_agent.py:312-316 | Strategy A stops at an accepted first candidate, with its text |
| Acquisition.NoCaptionsAnywhere | backend/video_agent.py:232-237 | no tracks and no API transcript give the no-captions message with the reported title, channel and duration |
| Acquisition.AcquireMetadataKeys | backend/video_agent.py:155-239 | the metadata returned always has exactly the five keys |
| AppRules.ErrorPrefixIsError | backend/app.py:41-45 | a message starting with "Error:" and no trailing whitespace is an error |
| AppRules.IsTranscriptError | backend/app.py:41-45 | a string whose stripped, lower-cased form starts with `error:`; nothing else is an error; `ErrorPrefixIsError` and `AcquiredErrorIff` state which texts it accepts |
| AppRules.FailureMessageShape | backend/video_agent.py:56-59 | every failure message starts with "Error:" and has no whitespace at its ends |
| AppRules.FailureMessagesAreErrors | backend/app.py:41-45 | the four failure messages of `get_transcript` are read as errors |
| AppRules.FailureMessagesAreStripped | backend/app.py:76-78 | the failure messages are their own strip, so the reply carries them verbatim |
| AppRules.AcquiredErrorIff | backend/app.py:41-45 | a returned text is an error exactly when it starts with "error:" in any case; every failure message is one |
| AppRules.MetadataFieldsAreKeys | backend/app.py:125 | the keys the overlay visits are the five metadata keys |
| AppRules.WithDefaults | backend/app.py:55-60 | every missing key is added, as `None` or for the URL the video URL; present keys keep their values |
| AppRules.Unpack | backend/app.py:48-62 | a pair gives its transcript and its metadata (falsy metadata becoming `{}`), anything else is the transcript with `{}`; then the five defaults; `UnpackSingle`, `UnpackAcquired` and `UnpackComplete` state it |
| AppRules.ExtractTranscriptMetadata | backend/app.py:48-62 | the method returns the unpacked transcript and completed metadata |
| AppRules.WithDefaultsIdempotent | backend/app.py:55-60 | completing twice is completing once |
| AppRules.UnpackSingle | backend/app.py:49-53 | anything but a pair becomes the transcript with the shell as metadata |
| AppRules.UnpackAcquired | backend/app.py:48-62 | the pair `get_transcript` returns passes through unchanged |
| AppRules.UnpackComplete | backend/app.py:48-62 | a pair whose metadata has the five keys is unpacked unchanged |
| AppRules.TranscriptFailure | backend/app.py:76-86 | no failure exactly for a truthy non-error transcript; 429 exactly for the two blocking messages; an error is replied with its stripped text; an empty transcript gets 500 with the generic message |
| AppRules.AcquiredStatus | backend/app.py:76-86 | for `get_transcript`'s text: 429 exactly for rate limit and IP block, the failure message itself, and no failure unless the text starts with "error:" |
| AppRules.CleanOutcomeStatus | backend/app.py:76-86 | the same for any text of the shape `get_transcript` returns |
| AppRules.StrippedStatus | backend/app.py:76-86 | the same for any non-empty stripped text |
| AppRules.PriorityStatus | backend/app.py:79-82 | the prioritised failure message is 429 exactly when it is rate limited or blocked |
| AppRules.BlockedAcquisitionIs429 | backend/app.py:76-86 | with no transcript, the reply is 429 exactly when Strategy A saw a 429 or the API reported a block |
| AppRules.FillTitle | backend/app.py:92-105 | the video title is the metadata's, else pytube's, else the fallback; truthy fields are never replaced; with a title, nothing changes; only the five keys are touched |
| AppRules.SetTitleIdempotent | backend/app.py:182-184 | repeating the title assignment changes nothing |
| AppRules.TitleIsSet | backend/app.py:92-105 | a non-empty fallback leaves a title unless pytube reports an empty one |
| AppRules.OverlayKeys | backend/app.py:125-128 | each truthy notes value replaces the metadata's; other entries are kept |
| AppRules.OverlayNotesMetadata | backend/app.py:123-128 | the loop over the five keys gives the overlay |
| AppRules.OverlayIdempotent | backend/app.py:123-128 | laying the same notes metadata over twice is doing it once |
| AppRules.OverlayKeysIdempotent | backend/app.py:125-128 | the same for any key list |
| AppRules.OverlayKeepsTruthy | backend/app.py:125-128 | no key is dropped and no truthy field becomes falsy |
| AppRules.OverlayKeysKeepTruthy | backend/app.py:125-128 | the same for any key list |
| AppRules.NotesMetadata | backend/app.py:120-128 | the notes' metadata never drops a key or falsifies a truthy field |
| AppRules.SummarizeStep | backend/app.py:107-134 | notes are sent exactly for a non-empty answer parsed as notes without `error`, with the cleaned transcript and overlaid metadata; other errors are 500 without metadata; an exception escapes |
| AppRules.ProcessVideo | backend/app.py:65-134 | 400 exactly for a missing URL; replies are 400, 429 or 500; notes only for a usable transcript |
| AppRules.FailedTranscriptReply | backend/app.py:76-86 | a failed transcript is answered at once with its status, message and metadata, whatever the later collaborators do |
| AppRules.NotesReplyShape | backend/app.py:88-134 | a notes reply carries the cleaned transcript, the five keys, and a title unless pytube reports an empty one |
| AppRules.ProcessAcquired | backend/app.py:74-86 | for `get_transcript`'s pair: 429 exactly for the blocking messages, and failures replied with the acquisition's metadata |
| AppRules.ReplyForCleanOutcome | backend/app.py:74-86 | the same for any text of that shape |
| AppRules.ReplyForTranscript | backend/app.py:74-86 | a string transcript gets 429 exactly when its failure is 429, and a failure reply carries the metadata |
| AppBatch.TranscriptError | backend/app.py:156-165 | the error entry carries the stripped message (or the generic one) and the metadata, and breaks exactly for a blocking message |
| AppBatch.ProcessEntry | backend/app.py:150-221 | the entry belongs to its URL; the loop breaks exactly after a 429-class failure; success exactly for a usable transcript, a non-empty answer and notes without `error` |
| AppBatch.SummaryEntry | backend/app.py:185-217 | success exactly for a non-empty answer parsed as notes without `error`; only an exception leaves an error without metadata |
| AppBatch.FallbackUnusedWithPyTube | backend/app.py:169-180 | the fallback title does not matter when pytube answers |
| AppBatch.SummaryEntryIgnoresTitle | backend/app.py:185-217 | the title step does not change the kind of entry or its error |
| AppBatch.FallbackOnlyNamesTitle | backend/app.py:169-180 | position and prefix only name pytube's fallback title |
| AppBatch.EntryAgreesWithProcessVideo | backend/app.py:150-221 | each video of a list succeeds, fails and breaks exactly as `process_video` would answer, with the same transcript and notes |
| AppBatch.OutcomesBlockOnlyWhenBlocked | backend/app.py:163-164 | only a rate-limit or IP-block error breaks the loop |
| AppBatch.Entries | backend/app.py:150-221 | no more entries than videos, and at least one for a non-empty list |
| AppBatch.EntriesInOrder | backend/app.py:150-221 | entry `k` is the `k`-th outcome; only the last can break; an early end means it broke |
| AppBatch.BatchEntriesInOrder | backend/app.py:150-221 | the same for the videos of a list |
| AppBatch.ListsAreSorted | backend/app.py:156-217 | `results` holds exactly the successes and `errors` exactly the failures |
| AppBatch.SuccessesAndFailures | backend/app.py:223-231 | every entry is in exactly one of the two lists |
| AppBatch.RunLoop | backend/app.py:150-221 | the loop, for any body, builds the successes and failures of the entries collected |
| AppBatch.RunBatch | backend/app.py:147-221 | the batch loop builds `results` and `errors` as specified |
| AppBatch.ReportOf | backend/app.py:223-231 | `total` is the number of URLs; `successful + failed` counts the entries, at most `total` and positive for a non-empty list |
| AppBatch.ShortReportEndsBlocked | backend/app.py:163-164 | fewer entries than videos only after a blocking failure, which is the last error |
| AppBatch.ShortEntriesEndBlocked | backend/app.py:163-164 | an early end leaves the breaking failure as the last error |
| AppBatch.FailuresEndWithLast | backend/app.py:162 | a failure appended last is the last error |
| AppBatch.BatchReply | backend/app.py:136-231 | rejected with 400 exactly for a missing, empty or non-list field or more than 10 URLs; a report covers every URL |
| AppBatch.ProcessBatch | backend/app.py:136-231 | the handler returns the specified reply |
| AppBatch.EntryUrls | backend/app.py:256-259 | no more URLs than entries |
| AppBatch.EntryUrlsFromEntries | backend/app.py:256-259 | a URL is collected exactly when an entry carries it |
| AppBatch.CollectUrls | backend/app.py:256-259 | the loop collects the entry URLs in order |
| AppBatch.PlaylistReply | backend/app.py:233-358 | 400 for a missing URL; a report exactly for one to twenty videos, with the playlist's title or "Unknown Playlist"; too large: 400 with the count of all entries; extraction error: 500 with its message |
| AppBatch.ProcessPlaylist | backend/app.py:233-358 | the handler returns the specified reply |
| AppBatch.PlaylistIsBatch | backend/app.py:273-343 | with pytube answering, a playlist is processed exactly as a batch of its URLs |
| AppBatch.SamePrefixFree | backend/app.py:292-303 | with pytube answering, the fallback prefix does not matter |
| TextAgent.SpanEnd | backend/text_agent.py:8-9 | the lazy `.*?` stops at the first closing character on the same line, or finds none on that line |
| TextAgent.RemoveSpans | backend/text_agent.py:8-9 | span removal never lengthens the text |
| TextAgent.RemoveSpansLeavesNoSpan | backend/text_agent.py:8-9 | after removal no opening character is followed on its line by the closing one |
| TextAgent.RemoveSpansOfNoSpan | backend/text_agent.py:8-9 | text without spans is left as it is |
| TextAgent.RemoveSpansKeepsNoSpan | backend/text_agent.py:8-9 | removing `(...)` spans keeps text free of `[...]` spans |
| TextAgent.FirstBreak | backend/text_agent.py:13 | the leftmost place where a run of spaces follows `.`, `!` or `?` |
| TextAgent.RunEnd | backend/text_agent.py:13 | the greedy ` +` takes the whole run of spaces |
| TextAgent.SplitSentences | backend/text_agent.py:13 | at least one piece; no piece holds a split point; every piece but the last ends a sentence; no later piece starts with a space |
| TextAgent.Capitalize | backend/text_agent.py:14 | the first character upper-cased and every other lower-cased, length kept |
| TextAgent.CapitalizeAll | backend/text_agent.py:14 | each sentence capitalised, in order |
| TextAgent.CapitalizeIdempotent | backend/text_agent.py:14 | capitalising twice is capitalising once |
| TextAgent.LowerCapitalize | backend/text_agent.py:14 | capitalising changes only the case of letters |
| TextAgent.JoinSplitSentences | backend/text_agent.py:13-16 | splitting and joining with single spaces shrinks each run of spaces after a sentence end to one space, changing nothing else |
| TextAgent.SplitJoin | backend/text_agent.py:13-16 | well-shaped sentences joined with single spaces split back into themselves |
| TextAgent.CleanTranscript | backend/text_agent.py:3-16 | `clean_transcript`: spans removed, stripped, split after sentence ends, each sentence capitalised, joined with spaces; the `Clean*` lemmas below state its properties |
| TextAgent.CleanKeepsText | backend/text_agent.py:3-16 | up to case, the result is the unspanned stripped text with runs after sentence ends shrunk |
| TextAgent.CleanLeavesNoSpans | backend/text_agent.py:3-16 | no `[...]` or `(...)` span is left on any line |
| TextAgent.CleanIsStripped | backend/text_agent.py:3-16 | the result has no whitespace at its ends, and is empty exactly when nothing remains after span removal and strip |
| TextAgent.CleanOfBlank | backend/text_agent.py:3-16 | whitespace alone cleans to "" |
| TextAgent.CleanSentences | backend/text_agent.py:3-16 | the sentences of the result are the capitalised sentences of the unspanned text |
| TextAgent.CleanIdempotent | backend/text_agent.py:3-16 | cleaning twice is cleaning once |
| Strings.ContainsIff | backend/video_agent.py:54 | the substring scan finds `p` exactly when it occurs somewhere |
| Strings.StripShape | backend/app.py:45 | `strip()` keeps a contiguous part, removing only whitespace on either side |
| Strings.StripIdempotent | backend/app.py:45 | stripping twice is stripping once |
| Strings.SplitLines | backend/video_agent.py:368 | no line holds a line break |
| Strings.JoinSplit | backend/video_agent.py:253 | joining the pieces of `split('/')` gives the string back |
| Strings.DecimalValueOfNatToString | backend/app.py:267 | the count rendered in the too-large message reads back as the number |

## Left out

- The network, yt-dlp, the transcript API library, pytube and the summariser
  are not modelled inside. Each is an input giving its answer, or the
  exception it raises, for the request made. Each answer is all-or-nothing.
- Partial pytube updates are not modelled. In `backend/app.py` 96-101,
  pytube's fields are written one at a time, so an exception after the first
  write, such as from `format_duration(getattr(yt, 'length', None))`, leaves
  `title` and `channel` set. In the model, pytube either gives all its fields
  or raises before writing any.
- Caption fetches are modelled by `Env.fetch`, a function of the track URL
  alone. A URL requested twice in one Strategy A scan therefore gets the same
  answer both times, whereas the real network may answer differently.
- `fetch_transcript_via_api` (`backend/video_agent.py` 382-440) is modelled as
  the API's answer for an identifier (`ApiOutcome`): chunk texts, or one of
  its exceptions. Detecting the installed library version is left out.
- `create_http_session` and `fetch_video_metadata` are left out: session
  headers, cookie-jar loading and proxies are I/O. The metadata lookup is the
  input `lookup`. An exception from `extract_info`, which
  `backend/video_agent.py` 147-152 catches, appears as `None`.
- Acquisition.Acquire: exceptions that escape `fetch_video_metadata` are not
  modelled. That function catches only around `extract_info`, so the
  `YoutubeDL(...)` constructor or its `__exit__` can raise out of it. On the
  Strategy B success path (lines 203-206) such an exception reaches the
  `except Exception` at line 216. The API transcript is then discarded and the
  failure tail runs. On the failure paths it leaves `get_transcript`. The
  model assumes the lookup never raises in this way, so a successful API
  answer is always returned.
- Every `print` and log line is left out, as are the startup diagnostics of
  `backend/app.py` 10-28, Flask routing and `jsonify`. A reply is a datatype
  with its status.
- `json.loads` and the removal of the code fences are left out. The parsed
  notes are an input (`Notes`): not JSON, an object with its `error` and
  `metadata` entries, or another JSON value.
- `backend/summarizer_agent.py` is not part of this model.
- Strings are ASCII: `lower`, `upper`, `capitalize`, `isspace` and
  `splitlines` follow Python only on ASCII characters.
- Duration.FormatDuration: the `int(seconds)` coercion of non-integer
  arguments is left out. The duration is an integer or `None`.
- Inputs are assumed to be strings where the source only hopes they are:
  video URLs, playlist entry URLs, `playlist_url` and the summariser's
  answer. Non-string values of these are not modelled. A non-string
  transcript is modelled; it raises the `TypeError` of `clean_transcript`.
- Exceptions raised by `get_transcript` itself, outside its own `try`
  blocks, are not modelled.
- A playlist whose `entries` is `None` is not modelled: that would make the
  handler's loop raise.
- YouTubeUrl.ExtractVideoId: `urlparse` is modelled for the parts the
  extractor reads (scheme, netloc, path, query, `hostname`). A netloc with
  a `[` or `]` anywhere, in the user information too, is taken to have no
  host name. Python finds one in some of these: for
  `https://[::1]@youtu.be/abc` its `hostname` is `youtu.be`. IPv6 literals and
  their validation errors are left out. The URL validator rejects every
  netloc with brackets, so this does not affect `get_transcript`.
- YouTubeUrl.Unquote: only `%XX` escapes of ASCII characters (below 0x80)
  are decoded. Escapes of higher bytes, which `unquote` decodes as UTF-8, are
  kept as written. The round-trip lemmas are stated for identifiers made of
  letters, digits, `-` and `_`.
- The regular expressions (`re.match` of the URL pattern, `re.sub` in the
  decoder and the cleaner, `re.split` of sentences) are written out as
  scanners. Each scanner's contract states the matching rule it implements.
