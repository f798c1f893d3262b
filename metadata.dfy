/**
 * The video information that yt-dlp reports and `update_metadata_from_info`,
 * which folds it into the metadata dictionary an acquisition accumulates:
 * title, channel and formatted duration are written only while still unset
 * (first writer wins), the raw duration is always refreshed, and the URL is
 * kept once it is set.
 */
module MetadataMerge {
  import opened Values
  import opened Duration

  /** One caption track as yt-dlp lists it: its `ext` and `url` entries, when present. */
  datatype Track = Track(ext: Option<string>, url: Option<string>)

  /**
   * The information dictionary yt-dlp returns, reduced to the entries that
   * acquisition and request handling read; an absent entry is
   * `Null`/`None`/empty. `otherKeys` records whether the dictionary holds
   * anything else, which matters only for its truthiness.
   */
  datatype Info = Info(
    title: Val,
    uploader: Val,
    channel: Val,
    duration: Option<int>,
    webpageUrl: Val,
    originalUrl: Val,
    automaticCaptions: map<string, seq<Track>>,
    subtitles: map<string, seq<Track>>,
    otherKeys: bool)

  /** `not info`: the dictionary has no entries at all. */
  predicate IsEmptyInfo(info: Info) {
    info.title == Null && info.uploader == Null && info.channel == Null && info.duration.None?
    && info.webpageUrl == Null && info.originalUrl == Null
    && info.automaticCaptions == map[] && info.subtitles == map[] && !info.otherKeys
  }

  /** The five keys the metadata dictionary is created with. */
  const MetadataKeys: set<string> := {"title", "channel", "duration", "duration_seconds", "url"}

  /** The metadata an acquisition starts from: every field `None` except the URL. */
  function Shell(url: string): (md: Dict)
    ensures md.Keys == MetadataKeys
    ensures Get(md, "url") == Str(url)
    ensures forall k :: k in MetadataKeys && k != "url" ==> md[k] == Null
  {
    map["title" := Null, "channel" := Null, "duration" := Null, "duration_seconds" := Null, "url" := Str(url)]
  }

  /** `info.get("uploader") or info.get("channel")`. */
  function ChannelOf(info: Info): Val {
    Or(info.uploader, info.channel)
  }

  /** `update_metadata_from_info(info, md)` as a function from the old dictionary to the new one. */
  function MergeInfo(md: Dict, info: Info): (r: Dict)
    // an empty information dictionary changes nothing
    ensures IsEmptyInfo(info) ==> r == md
    // only the five metadata keys are ever written
    ensures md.Keys <= r.Keys <= md.Keys + MetadataKeys
    ensures forall k :: k in md && k !in MetadataKeys ==> k in r && r[k] == md[k]
    // the raw duration follows the latest report
    ensures Get(r, "duration_seconds") ==
      (if info.duration.Some? then Int(info.duration.value) else Get(md, "duration_seconds"))
    // a URL, once set, is kept; otherwise the page URL, then the original URL, is taken
    ensures Truthy(Get(md, "url")) ==> Get(r, "url") == Get(md, "url")
    ensures !IsEmptyInfo(info) && !Truthy(Get(md, "url")) ==> Get(r, "url") == Or(info.webpageUrl, info.originalUrl)
  {
    if IsEmptyInfo(info) then md
    else
      var md1 := md["url" := Or(Or(Get(md, "url"), info.webpageUrl), info.originalUrl)];
      var md2 := if Truthy(info.title) && !Truthy(Get(md1, "title")) then md1["title" := info.title] else md1;
      var channel := ChannelOf(info);
      var md3 := if Truthy(channel) && !Truthy(Get(md2, "channel")) then md2["channel" := channel] else md2;
      match info.duration
      case None => md3
      case Some(d) =>
        var md4 := md3["duration_seconds" := Int(d)];
        if !Truthy(Get(md4, "duration")) then md4["duration" := OptStr(FormatDuration(Some(d)))] else md4
  }

  /** First writer wins on title, channel and formatted duration; an unset field is filled from a truthy reported value, and only from one. */
  lemma MergeInfoFills(md: Dict, info: Info)
    ensures var r := MergeInfo(md, info);
      Truthy(Get(md, "title")) ==> Get(r, "title") == Get(md, "title")
    ensures var r := MergeInfo(md, info);
      Truthy(Get(md, "channel")) ==> Get(r, "channel") == Get(md, "channel")
    ensures var r := MergeInfo(md, info);
      Truthy(Get(md, "duration")) ==> Get(r, "duration") == Get(md, "duration")
    ensures var r := MergeInfo(md, info);
      !Truthy(Get(md, "title")) ==> Get(r, "title") == (if Truthy(info.title) then info.title else Get(md, "title"))
    ensures var r := MergeInfo(md, info);
      !Truthy(Get(md, "channel")) ==> Get(r, "channel") == (if Truthy(ChannelOf(info)) then ChannelOf(info) else Get(md, "channel"))
    ensures var r := MergeInfo(md, info);
      !Truthy(Get(md, "duration")) ==>
        Get(r, "duration") == (if info.duration.Some? then OptStr(FormatDuration(info.duration)) else Get(md, "duration"))
  {
  }

  /** Folding the same report in twice is folding it in once. */
  lemma MergeInfoIdempotent(md: Dict, info: Info)
    ensures MergeInfo(MergeInfo(md, info), info) == MergeInfo(md, info)
  {
    if !IsEmptyInfo(info) {
      MergeSettles(md, info);
      SettledIsFixed(MergeInfo(md, info), info);
    }
  }

  /** Everything `info` would write into `m` is already there. */
  predicate Settled(m: Dict, info: Info) {
    && "url" in m && Or(Or(m["url"], info.webpageUrl), info.originalUrl) == m["url"]
    && (Truthy(info.title) ==> Truthy(Get(m, "title")))
    && (Truthy(ChannelOf(info)) ==> Truthy(Get(m, "channel")))
    && (info.duration.Some? ==>
          && "duration_seconds" in m && m["duration_seconds"] == Int(info.duration.value)
          && (!Truthy(Get(m, "duration")) ==> "duration" in m && m["duration"] == OptStr(FormatDuration(info.duration))))
  }

  /** After one merge, the dictionary is settled for that report. */
  lemma MergeSettles(md: Dict, info: Info)
    requires !IsEmptyInfo(info)
    ensures Settled(MergeInfo(md, info), info)
  {
    MergeInfoFills(md, info);
    OrSettles(Get(md, "url"), info.webpageUrl, info.originalUrl);
  }

  /** `(x or w or o) or w or o` is `x or w or o`. */
  lemma OrSettles(x: Val, w: Val, o: Val)
    ensures Or(Or(Or(Or(x, w), o), w), o) == Or(Or(x, w), o)
  {
  }

  /** Merging a report into a dictionary settled for it changes nothing. */
  lemma SettledIsFixed(m: Dict, info: Info)
    requires Settled(m, info)
    ensures MergeInfo(m, info) == m
  {
    if !IsEmptyInfo(info) {
      var u := Or(Or(Get(m, "url"), info.webpageUrl), info.originalUrl);
      UpdateSame(m, "url", u);
      match info.duration
      case None =>
      case Some(d) =>
        UpdateSame(m, "duration_seconds", Int(d));
        if !Truthy(Get(m, "duration")) {
          UpdateSame(m, "duration", OptStr(FormatDuration(Some(d))));
        }
    }
  }

  /** Writing the value a key already holds leaves the dictionary as it is. */
  lemma UpdateSame(m: Dict, k: string, v: Val)
    requires k in m && m[k] == v
    ensures m[k := v] == m
  {
  }

  /** Starting from the shell, a reported title, channel and duration are all taken over. */
  lemma MergeIntoShell(url: string, info: Info)
    requires url != ""
    ensures Get(MergeInfo(Shell(url), info), "url") == Str(url)
    ensures Get(MergeInfo(Shell(url), info), "title") == (if Truthy(info.title) then info.title else Null)
    ensures Get(MergeInfo(Shell(url), info), "channel") == (if Truthy(ChannelOf(info)) then ChannelOf(info) else Null)
    ensures Get(MergeInfo(Shell(url), info), "duration") == OptStr(FormatDuration(info.duration))
    ensures MergeInfo(Shell(url), info).Keys == MetadataKeys
  {
  }

  /**
   * The metadata dictionary an acquisition threads through its steps and
   * updates in place.
   */
  class Metadata {
    var entries: Dict

    /** The shell built at the start of `get_transcript`. */
    constructor (url: string)
      ensures entries == Shell(url)
    {
      entries := Shell(url);
    }

    /** `update_metadata_from_info(info, self)`. */
    method UpdateFromInfo(info: Info)
      modifies this
      ensures entries == MergeInfo(old(entries), info)
    {
      if IsEmptyInfo(info) {
        return;
      }
      entries := entries["url" := Or(Or(Get(entries, "url"), info.webpageUrl), info.originalUrl)];
      var title := info.title;
      if Truthy(title) && !Truthy(Get(entries, "title")) {
        entries := entries["title" := title];
      }
      var channel := Or(info.uploader, info.channel);
      if Truthy(channel) && !Truthy(Get(entries, "channel")) {
        entries := entries["channel" := channel];
      }
      if info.duration.Some? {
        var d := info.duration.value;
        entries := entries["duration_seconds" := Int(d)];
        if !Truthy(Get(entries, "duration")) {
          entries := entries["duration" := OptStr(FormatDuration(Some(d)))];
        }
      }
    }
  }
}
