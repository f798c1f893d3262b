/**
 * The URL/ID resolver: `is_valid_youtube_url` (a fixed regular expression,
 * written out here as a recogniser) and `extract_video_id` (built on a
 * simplified `urllib.parse.urlparse` and `parse_qs`).
 */
module YouTubeUrl {
  import opened Strings
  import opened Values

  // ---------------------------------------------------------------------------
  // Validation: ^(https?://)?(www\.)?(youtube\.com|youtu\.?be)/.+$
  // ---------------------------------------------------------------------------

  /**
   * What `.+$` accepts: at least one character other than a newline, optionally
   * followed by a single newline that ends the string.
   */
  predicate TailMatches(t: string) {
    |t| >= 1 &&
    (('\n' !in t) || (|t| >= 2 && t[|t| - 1] == '\n' && '\n' !in t[..|t| - 1]))
  }

  const SchemePrefixes: seq<string> := ["https://", "http://", ""]
  const WwwPrefixes: seq<string> := ["www.", ""]
  const HostNames: seq<string> := ["youtube.com", "youtu.be", "youtube"]

  /** Which optional scheme the payload starts with (2: none). */
  function SchemeIndex(url: string): (a: nat)
    ensures a < 3 && StartsWith(url, SchemePrefixes[a])
  {
    if StartsWith(url, "https://") then 0 else if StartsWith(url, "http://") then 1 else 2
  }

  /** Whether the `www.` follows (1: it does not). */
  function WwwIndex(s: string): (b: nat)
    ensures b < 2 && StartsWith(s, WwwPrefixes[b])
  {
    if StartsWith(s, "www.") then 0 else 1
  }

  /** What follows the (optional) scheme and the (optional) `www.`. */
  function HostPart(url: string): string {
    var s := url[|SchemePrefixes[SchemeIndex(url)]|..];
    s[|WwwPrefixes[WwwIndex(s)]|..]
  }

  /** The host alternative `w` starts with, followed by `/` (3: none). */
  function HostIndex(w: string): (h: nat)
    ensures h <= 3 && (h < 3 ==> StartsWith(w, HostNames[h] + "/"))
  {
    if StartsWith(w, "youtube.com/") then 0
    else if StartsWith(w, "youtu.be/") then 1
    else if StartsWith(w, "youtube/") then 2
    else 3
  }

  /** The recogniser: after the optional scheme and `www.` comes an accepted host, a `/`, and a `.+$` tail. */
  predicate IsValidYoutubeUrl(url: string) {
    var w := HostPart(url);
    var h := HostIndex(w);
    h < 3 && TailMatches(w[|HostNames[h]| + 1..])
  }

  /** One of the eighteen literal prefixes the pattern's alternatives can produce. */
  function PatternPrefix(a: nat, b: nat, h: nat): string
    requires a < 3 && b < 2 && h < 3
  {
    SchemePrefixes[a] + WwwPrefixes[b] + HostNames[h] + "/"
  }

  /** The pattern, read as: some choice of its alternatives is a prefix, and the rest matches `.+$`. */
  ghost predicate MatchesUrlPattern(url: string) {
    exists a: nat, b: nat, h: nat :: a < 3 && b < 2 && h < 3 &&
      StartsWith(url, PatternPrefix(a, b, h)) && TailMatches(url[|PatternPrefix(a, b, h)|..])
  }

  lemma StartsWithConcat(x: string, p: string, q: string)
    ensures StartsWith(x, p + q) <==> StartsWith(x, p) && StartsWith(x[|p|..], q)
  {
    if StartsWith(x, p) && StartsWith(x[|p|..], q) {
      assert x[..|p + q|] == x[..|p|] + x[|p|..][..|q|];
    }
    if StartsWith(x, p + q) {
      assert x[..|p|] == (p + q)[..|p|];
      assert x[|p|..][..|q|] == (p + q)[|p|..];
    }
  }

  /** A scheme followed by text starting with `w` or `y` is the scheme `SchemeIndex` picks. */
  lemma SchemeIndexOf(url: string, a: nat, rest: string)
    requires a < 3 && |rest| > 0 && (rest[0] == 'w' || rest[0] == 'y')
    requires StartsWith(url, SchemePrefixes[a] + rest)
    ensures SchemeIndex(url) == a
  {
    StartsWithConcat(url, SchemePrefixes[a], rest);
    var n := |SchemePrefixes[a]|;
    assert url[n] == rest[0] by { assert url[n..][..|rest|] == rest; }
    if a == 1 {
      assert url[4] == ':' by { assert url[..7] == "http://"; }
    } else if a == 2 {
      assert url[0] == rest[0];
    }
  }

  lemma WwwIndexOf(s: string, b: nat, rest: string)
    requires b < 2 && |rest| > 0 && rest[0] == 'y'
    requires StartsWith(s, WwwPrefixes[b] + rest)
    ensures WwwIndex(s) == b
  {
    StartsWithConcat(s, WwwPrefixes[b], rest);
    if b == 1 {
      assert s[0] == rest[0] by { assert s[..|rest|] == rest; }
    }
  }

  /** The recogniser accepts exactly the strings the regular expression matches. */
  lemma ValidIffMatchesPattern(url: string)
    ensures IsValidYoutubeUrl(url) <==> MatchesUrlPattern(url)
  {
    if IsValidYoutubeUrl(url) {
      ValidImpliesPattern(url);
    }
    if MatchesUrlPattern(url) {
      var a: nat, b: nat, h: nat :| a < 3 && b < 2 && h < 3 &&
        StartsWith(url, PatternPrefix(a, b, h)) && TailMatches(url[|PatternPrefix(a, b, h)|..]);
      PatternImpliesValid(url, a, b, h);
    }
  }

  lemma ValidImpliesPattern(url: string)
    requires IsValidYoutubeUrl(url)
    ensures MatchesUrlPattern(url)
  {
    var a, b, h := ChosenPrefix(url);
    assert TailMatches(url[|PatternPrefix(a, b, h)|..]);
  }

  /** The alternatives the recogniser picks form a prefix of the URL, and the tail it checks is what follows. */
  lemma ChosenPrefix(url: string) returns (a: nat, b: nat, h: nat)
    requires HostIndex(HostPart(url)) < 3
    ensures a < 3 && b < 2 && h < 3 && h == HostIndex(HostPart(url))
    ensures StartsWith(url, PatternPrefix(a, b, h))
    ensures url[|PatternPrefix(a, b, h)|..] == HostPart(url)[|HostNames[h]| + 1..]
  {
    a := SchemeIndex(url);
    var s := url[|SchemePrefixes[a]|..];
    b := WwwIndex(s);
    var w := s[|WwwPrefixes[b]|..];
    h := HostIndex(w);
    PrefixOfChoice(url, a, b, h);
  }

  /** Alternatives read one after the other from the front of `x` make the prefix `PatternPrefix` spells. */
  lemma PrefixOfChoice(x: string, a: nat, b: nat, h: nat)
    requires a < 3 && b < 2 && h < 3
    requires StartsWith(x, SchemePrefixes[a]) && StartsWith(x[|SchemePrefixes[a]|..], WwwPrefixes[b])
    requires StartsWith(x[|SchemePrefixes[a]|..][|WwwPrefixes[b]|..], HostNames[h] + "/")
    ensures StartsWith(x, PatternPrefix(a, b, h))
    ensures x[|PatternPrefix(a, b, h)|..] == x[|SchemePrefixes[a]|..][|WwwPrefixes[b]|..][|HostNames[h]| + 1..]
  {
    PrefixOfParts(x, SchemePrefixes[a], WwwPrefixes[b], HostNames[h] + "/");
  }

  /** Three prefixes read one after the other make one prefix, and the rest is what follows the third. */
  lemma PrefixOfParts(x: string, p: string, q: string, r: string)
    requires StartsWith(x, p) && StartsWith(x[|p|..], q) && StartsWith(x[|p|..][|q|..], r)
    ensures StartsWith(x, p + q + r) && x[|p + q + r|..] == x[|p|..][|q|..][|r|..]
  {
    StartsWithConcat(x[|p|..], q, r);
    StartsWithConcat(x, p, q + r);
    assert p + q + r == p + (q + r);
  }

  lemma PatternImpliesValid(url: string, a: nat, b: nat, h: nat)
    requires a < 3 && b < 2 && h < 3
    requires StartsWith(url, PatternPrefix(a, b, h)) && TailMatches(url[|PatternPrefix(a, b, h)|..])
    ensures IsValidYoutubeUrl(url)
  {
    var host := HostNames[h] + "/";
    var rest := WwwPrefixes[b] + host;
    assert PatternPrefix(a, b, h) == SchemePrefixes[a] + rest;
    SchemeIndexOf(url, a, rest);
    StartsWithConcat(url, SchemePrefixes[a], rest);
    var s := url[|SchemePrefixes[a]|..];
    WwwIndexOf(s, b, host);
    StartsWithConcat(s, WwwPrefixes[b], host);
    var w := s[|WwwPrefixes[b]|..];
    assert w == HostPart(url);
    assert url[|PatternPrefix(a, b, h)|..] == w[|host|..];
    HostIndexOf(w, h);
  }

  /** Any host alternative `w` starts with leaves the same tail condition as the one `HostIndex` picks. */
  lemma HostIndexOf(w: string, h: nat)
    requires h < 3 && StartsWith(w, HostNames[h] + "/")
    ensures HostIndex(w) < 3
    ensures TailMatches(w[|HostNames[h]| + 1..]) ==> TailMatches(w[|HostNames[HostIndex(w)]| + 1..])
  {
    // "youtube.com/..." does not start with "youtube/", and "youtube/..." does not
    // start with "youtube.com/": the alternatives never overlap.
    assert w[..|HostNames[h]| + 1] == HostNames[h] + "/";
    if h == 1 {
      assert w[5] == '.';
      assert !StartsWith(w, "youtube.com/");
    } else if h == 2 {
      assert w[5] == 'b' && w[7] == '/';
      assert !StartsWith(w, "youtube.com/") && !StartsWith(w, "youtu.be/");
    }
  }

  // ---------------------------------------------------------------------------
  // A simplified urlsplit / urlparse
  // ---------------------------------------------------------------------------

  /** The characters `urlsplit` allows in a scheme. */
  predicate IsSchemeChar(c: char) {
    IsAsciiLetter(c) || IsDigit(c) || c == '+' || c == '-' || c == '.'
  }

  /** The characters `urlsplit` strips from the front: C0 controls and space. */
  function LStripControls(s: string): (r: string)
    ensures |r| <= |s| && r == s[|s| - |r|..]
    decreases |s|
  {
    if |s| > 0 && s[0] as int <= 32 then LStripControls(s[1..]) else s
  }

  /** `urlsplit` deletes every tab, carriage return and newline. */
  function RemoveUnsafe(s: string): (r: string)
    ensures |r| <= |s|
    decreases |s|
  {
    if |s| == 0 then ""
    else (if s[0] == '\t' || s[0] == '\r' || s[0] == '\n' then "" else [s[0]]) + RemoveUnsafe(s[1..])
  }

  /** The schemes for which `urlparse` separates `;params` from the last path segment. */
  const UsesParams: seq<string> := ["", "ftp", "hdl", "prospero", "http", "imap", "https", "shttp",
                                    "rtsp", "rtsps", "rtspu", "sip", "sips", "mms", "sftp", "tel"]

  /** Index of the first character of `s` at or after `start` that is one of `/?#`, or `|s|`. */
  function NetlocEnd(s: string, start: nat): (i: nat)
    requires start <= |s|
    ensures start <= i <= |s|
    ensures forall k :: start <= k < i ==> s[k] != '/' && s[k] != '?' && s[k] != '#'
    ensures i < |s| ==> s[i] == '/' || s[i] == '?' || s[i] == '#'
    decreases |s| - start
  {
    if start == |s| || s[start] == '/' || s[start] == '?' || s[start] == '#' then start
    else NetlocEnd(s, start + 1)
  }

  /** Index of the last `c` in `s`, or -1 (`s.rfind(c)`). */
  function LastIndexOf(s: string, c: char): (i: int)
    ensures -1 <= i < |s|
    ensures i >= 0 ==> s[i] == c && c !in s[i + 1..]
    ensures i < 0 <==> c !in s
    decreases |s|
  {
    if |s| == 0 then -1
    else if s[|s| - 1] == c then |s| - 1
    else LastIndexOf(s[..|s| - 1], c)
  }

  /** `_splitparams`: the path without its `;params` part. */
  function WithoutParams(path: string): string {
    if '/' in path then
      var last := LastIndexOf(path, '/');
      var j := IndexOf(path[last..], ';');
      if j < 0 then path else path[..last + j]
    else
      var j := IndexOf(path, ';');
      if j < 0 then path else path[..j]
  }

  datatype UrlParts = UrlParts(scheme: string, netloc: string, path: string, query: string)

  /** `urlsplit`'s clean-up: leading controls and spaces, then every tab, CR and LF, go. */
  function Sanitize(url: string): string {
    RemoveUnsafe(LStripControls(url))
  }

  /**
   * The scheme and what follows its colon, when `u` starts with an ASCII letter
   * and every character up to the first `:` may appear in a scheme; otherwise no
   * scheme and all of `u`.
   */
  function SplitScheme(u: string): (r: (string, string))
    ensures |r.1| <= |u|
  {
    var colon := IndexOf(u, ':');
    if colon > 0 && IsAsciiLetter(u[0]) && forall k :: 0 <= k < colon ==> IsSchemeChar(u[k]) then
      (Lower(u[..colon]), u[colon + 1..])
    else ("", u)
  }

  /** The network location after a leading `//`, up to the first `/`, `?` or `#`. */
  function SplitNetloc(rest: string): (string, string) {
    if StartsWith(rest, "//") then
      var e := NetlocEnd(rest, 2);
      (rest[2..e], rest[e..])
    else ("", rest)
  }

  /** The path and the query, once the fragment after the first `#` is dropped. */
  function SplitPathQuery(s: string): (string, string) {
    var hash := IndexOf(s, '#');
    var beforeFragment := if hash >= 0 then s[..hash] else s;
    var question := IndexOf(beforeFragment, '?');
    if question >= 0 then (beforeFragment[..question], beforeFragment[question + 1..])
    else (beforeFragment, "")
  }

  /** `urlparse(url)`, keeping the components the extractor reads. */
  function ParseUrl(url: string): UrlParts {
    var (scheme, rest) := SplitScheme(Sanitize(url));
    var (netloc, afterNet) := SplitNetloc(rest);
    var (path, query) := SplitPathQuery(afterNet);
    var path' := if scheme in UsesParams && ';' in path then WithoutParams(path) else path;
    UrlParts(scheme, netloc, path', query)
  }

  /**
   * `.hostname`: the netloc without user information and port, lower-cased up
   * to a `%` zone marker; `None` when that leaves nothing. A netloc holding a
   * bracket is taken to have no host name.
   */
  function Hostname(netloc: string): Option<string> {
    if '[' in netloc || ']' in netloc then None
    else
      var at := LastIndexOf(netloc, '@');
      var hostinfo := netloc[at + 1..];
      var colon := IndexOf(hostinfo, ':');
      var host := if colon >= 0 then hostinfo[..colon] else hostinfo;
      if host == "" then None
      else
        var pct := IndexOf(host, '%');
        if pct >= 0 then Some(Lower(host[..pct]) + host[pct..]) else Some(Lower(host))
  }

  /** `parse_qs` turns `+` into a space in names and values. */
  function PlusToSpace(s: string): (r: string)
    ensures |r| == |s|
  {
    seq(|s|, i requires 0 <= i < |s| => if s[i] == '+' then ' ' else s[i])
  }

  predicate IsHexDigit(c: char) {
    IsDigit(c) || 'a' <= c <= 'f' || 'A' <= c <= 'F'
  }

  /** The value of a hexadecimal digit, in either case. */
  function HexValue(c: char): (v: nat)
    requires IsHexDigit(c)
    ensures v < 16
  {
    if IsDigit(c) then c as int - '0' as int
    else if 'a' <= c <= 'f' then c as int - 'a' as int + 10
    else c as int - 'A' as int + 10
  }

  /** The upper-case hexadecimal digit for `v < 16`. */
  function HexDigit(v: nat): (c: char)
    requires v < 16
    ensures IsHexDigit(c) && HexValue(c) == v
  {
    if v < 10 then ('0' as int + v) as char else ('A' as int + v - 10) as char
  }

  /** `s` starts with `%XX` where `XX` denotes an ASCII character (below 0x80). */
  predicate StartsWithAsciiEscape(s: string) {
    |s| >= 3 && s[0] == '%' && IsHexDigit(s[1]) && IsHexDigit(s[2]) && HexValue(s[1]) < 8
  }

  /**
   * `unquote` for escapes of ASCII characters: each `%XX` whose two
   * hexadecimal digits denote a value below 0x80 becomes that character;
   * every other character, a `%` without such digits included, is kept.
   */
  function Unquote(s: string): (r: string)
    ensures |r| <= |s|
    decreases |s|
  {
    if |s| == 0 then ""
    else if StartsWithAsciiEscape(s) then [(HexValue(s[1]) * 16 + HexValue(s[2])) as char] + Unquote(s[3..])
    else [s[0]] + Unquote(s[1..])
  }

  /** `%XX` for an ASCII character, with upper-case digits, as `quote` writes it. */
  function Escape(c: char): (r: string)
    requires c as int < 0x80
    ensures |r| == 3 && StartsWithAsciiEscape(r)
    ensures forall i :: 1 <= i < 3 ==> IsHexDigit(r[i])
  {
    ['%', HexDigit(c as int / 16), HexDigit(c as int % 16)]
  }

  predicate IsAsciiText(s: string) {
    forall i :: 0 <= i < |s| ==> s[i] as int < 0x80
  }

  /** Every character of an ASCII text written as its `%XX` escape. */
  function EscapeAll(s: string): (r: string)
    requires IsAsciiText(s)
    ensures |r| == 3 * |s|
    ensures forall i :: 0 <= i < |r| ==> r[i] == '%' || IsHexDigit(r[i])
    decreases |s|
  {
    if |s| == 0 then "" else Escape(s[0]) + EscapeAll(s[1..])
  }

  /**
   * The first value `parse_qs` records for `name`, from the `&`-separated
   * pairs: a pair needs an `=` and a non-empty value to be recorded; its name
   * and value have `+` turned into a space and are then unquoted.
   */
  function FirstQueryValue(pairs: seq<string>, name: string): Option<string>
    decreases |pairs|
  {
    if |pairs| == 0 then None
    else
      var eq := IndexOf(pairs[0], '=');
      if eq >= 0 && eq + 1 < |pairs[0]| && Unquote(PlusToSpace(pairs[0][..eq])) == name then
        Some(Unquote(PlusToSpace(pairs[0][eq + 1..])))
      else FirstQueryValue(pairs[1..], name)
  }

  /** The path segments after which `extract_video_id` looks for the identifier. */
  predicate IsMarker(part: string) {
    part == "embed" || part == "v"
  }

  /** The path segment right after the first `embed` or `v` segment that has a successor. */
  function SegmentAfterMarker(parts: seq<string>): Option<string>
    decreases |parts|
  {
    if |parts| < 2 then None
    else if IsMarker(parts[0]) then Some(parts[1])
    else SegmentAfterMarker(parts[1..])
  }

  /** The `enumerate` loop over the path segments, returning at the first marker that has a successor. */
  method FindSegmentAfterMarker(parts: seq<string>) returns (segment: Option<string>)
    ensures segment == SegmentAfterMarker(parts)
  {
    for i := 0 to |parts|
      invariant SegmentAfterMarker(parts[i..]) == SegmentAfterMarker(parts)
    {
      if IsMarker(parts[i]) && i + 1 < |parts| {
        return Some(parts[i + 1]);
      }
      assert parts[i..][1..] == parts[i + 1..];
    }
    return None;
  }

  /** `i` is the first marker of `parts`, and it has a successor. */
  predicate FirstMarkerAt(parts: seq<string>, i: int) {
    0 <= i < |parts| - 1 && IsMarker(parts[i]) && forall j :: 0 <= j < i ==> !IsMarker(parts[j])
  }

  /**
   * The segment found is the successor of the first marker, and one is found
   * exactly when some marker other than the last segment occurs.
   */
  lemma {:induction false} SegmentAfterMarkerIsFirst(parts: seq<string>)
    ensures SegmentAfterMarker(parts).Some? <==> exists i :: 0 <= i < |parts| - 1 && IsMarker(parts[i])
    ensures SegmentAfterMarker(parts).Some? ==>
      exists i :: FirstMarkerAt(parts, i) && SegmentAfterMarker(parts).value == parts[i + 1]
    decreases |parts|
  {
    if |parts| >= 2 && !IsMarker(parts[0]) {
      var rest := parts[1..];
      SegmentAfterMarkerIsFirst(rest);
      forall i | 0 < i < |parts| && IsMarker(parts[i])
        ensures IsMarker(rest[i - 1])
      {
        assert parts[i] == rest[i - 1];
      }
      if SegmentAfterMarker(rest).Some? {
        var i: int :| FirstMarkerAt(rest, i) && SegmentAfterMarker(rest).value == rest[i + 1];
        assert parts[i + 1] == rest[i] && parts[i + 2] == rest[i + 1];
        forall j | 0 < j < i + 1
          ensures !IsMarker(parts[j])
        {
          assert parts[j] == rest[j - 1];
        }
        assert FirstMarkerAt(parts, i + 1);
      }
    } else if |parts| >= 2 {
      assert FirstMarkerAt(parts, 0);
    }
  }

  /** `extract_video_id(url)`: total; `""` whenever no identifier is recognised. */
  function ExtractVideoId(url: string): string {
    IdFromParts(ParseUrl(url))
  }

  /** The identifier `extract_video_id` reads from the parsed components. */
  function IdFromParts(parts: UrlParts): string {
    match Hostname(parts.netloc)
    case None => ""
    case Some(host) =>
      if host == "youtu.be" then LStripChar(parts.path, '/')
      else if Contains(host, "youtube") then IdFromWatchOrEmbed(parts.path, parts.query)
      else ""
  }

  /** On a `youtube` host: the first `v` query value, else the segment after `embed` or `v`, else `""`. */
  function IdFromWatchOrEmbed(path: string, query: string): string {
    match FirstQueryValue(Split(query, '&'), "v")
    case Some(v) => v
    case None =>
      match SegmentAfterMarker(Split(path, '/'))
      case Some(segment) => segment
      case None => ""
  }

  // ---------------------------------------------------------------------------
  // Properties of the extractor
  // ---------------------------------------------------------------------------

  /** The characters YouTube uses in video identifiers. */
  predicate IsVideoIdChar(c: char) {
    IsAsciiLetter(c) || IsDigit(c) || c == '-' || c == '_'
  }

  predicate IsVideoIdText(id: string) {
    forall i :: 0 <= i < |id| ==> IsVideoIdChar(id[i])
  }

  predicate IsUnsafe(c: char) {
    c == '\t' || c == '\r' || c == '\n'
  }

  lemma {:induction false} RemoveUnsafeAppend(p: string, q: string)
    ensures RemoveUnsafe(p + q) == RemoveUnsafe(p) + RemoveUnsafe(q)
    decreases |p|
  {
    if |p| > 0 {
      assert (p + q)[1..] == p[1..] + q;
      RemoveUnsafeAppend(p[1..], q);
    } else {
      assert p + q == q;
    }
  }

  lemma {:induction false} RemoveUnsafeNoop(s: string)
    requires forall i :: 0 <= i < |s| ==> !IsUnsafe(s[i])
    ensures RemoveUnsafe(s) == s
    decreases |s|
  {
    if |s| > 0 {
      RemoveUnsafeNoop(s[1..]);
    }
  }

  /** A lower-case host name without user information, port or brackets is its own `.hostname`. */
  lemma HostnameOfPlainHost(host: string)
    requires host != []
    requires forall i :: 0 <= i < |host| ==> ('a' <= host[i] <= 'z' || host[i] == '.')
    ensures Hostname(host) == Some(host)
  {
    assert '@' !in host && ':' !in host && '%' !in host && '[' !in host && ']' !in host;
    assert host[0..] == host;
    LowerNoop(host);
  }

  lemma SplitSchemeHttps(rest: string)
    ensures SplitScheme("https:" + rest) == ("https", rest)
  {
    var u := "https:" + rest;
    assert u[5] == ':' && ':' !in u[..5];
    assert u[..5] == "https";
    LowerNoop("https");
    assert u[6..] == rest;
  }

  lemma SplitNetlocOf(host: string, tail: string)
    requires forall i :: 0 <= i < |host| ==> host[i] != '/' && host[i] != '?' && host[i] != '#'
    requires |tail| > 0 && tail[0] == '/'
    ensures SplitNetloc("//" + host + tail) == (host, tail)
  {
    var rest := "//" + host + tail;
    assert rest[2 + |host|] == '/';
    assert forall k :: 2 <= k < 2 + |host| ==> rest[k] == host[k - 2];
    assert NetlocEnd(rest, 2) == 2 + |host|;
    assert rest[2..2 + |host|] == host;
    assert rest[2 + |host|..] == tail;
  }

  lemma SplitPathQueryOf(tail: string)
    requires '#' !in tail
    ensures var q := IndexOf(tail, '?');
      SplitPathQuery(tail) == if q >= 0 then (tail[..q], tail[q + 1..]) else (tail, "")
  {
  }

  /**
   * How `urlparse` splits `https://<host><tail>` when the host holds no
   * delimiter, the tail is a path starting with `/`, optionally followed by a
   * `?` query, and nothing is a fragment or a `;params` part.
   */
  lemma ParseHttpsUrl(host: string, tail: string)
    requires forall i :: 0 <= i < |host| ==> ('a' <= host[i] <= 'z' || host[i] == '.')
    requires |tail| > 0 && tail[0] == '/' && '#' !in tail
    requires forall i :: 0 <= i < |tail| ==> !IsUnsafe(tail[i])
    requires ';' !in SplitPathQuery(tail).0
    ensures ParseUrl("https://" + host + tail) == UrlParts("https", host, SplitPathQuery(tail).0, SplitPathQuery(tail).1)
  {
    var url := "https://" + host + tail;
    assert "https://" == "https:" + "//";
    assert url == "https:" + ("//" + host + tail);
    assert LStripControls(url) == url by { assert url[0] == 'h'; }
    RemoveUnsafeNoop(url);
    assert Sanitize(url) == url;
    SplitSchemeHttps("//" + host + tail);
    SplitNetlocOf(host, tail);
    SplitPathQueryOf(tail);
    assert "https" in UsesParams;
  }

  /** A lower-case dotted host name. */
  predicate IsPlainHost(host: string) {
    host != [] && forall i :: 0 <= i < |host| ==> ('a' <= host[i] <= 'z' || host[i] == '.')
  }

  /** An absolute path made of identifier characters and slashes. */
  predicate IsPlainPath(path: string) {
    |path| > 0 && path[0] == '/' && forall i :: 0 <= i < |path| ==> (path[i] == '/' || IsVideoIdChar(path[i]))
  }

  lemma ParsePathUrl(host: string, path: string)
    requires IsPlainHost(host) && IsPlainPath(path)
    ensures ParseUrl("https://" + host + path) == UrlParts("https", host, path, "")
  {
    assert '?' !in path && '#' !in path && ';' !in path;
    SplitPathQueryOf(path);
    ParseHttpsUrl(host, path);
  }

  lemma ParseQueryUrl(host: string, path: string, query: string)
    requires IsPlainHost(host) && IsPlainPath(path)
    requires forall i :: 0 <= i < |query| ==> (query[i] == '=' || query[i] == '%' || IsVideoIdChar(query[i]))
    ensures ParseUrl("https://" + host + (path + "?" + query)) == UrlParts("https", host, path, query)
  {
    var tail := path + "?" + query;
    assert '?' !in path && ';' !in path;
    assert tail[|path|] == '?' && tail[..|path|] == path;
    assert IndexOf(tail, '?') == |path|;
    assert forall i :: 0 <= i < |tail| ==> tail[i] != '#' && !IsUnsafe(tail[i]) by {
      forall i | 0 <= i < |tail|
        ensures tail[i] != '#' && !IsUnsafe(tail[i])
      {
        if i < |path| { assert tail[i] == path[i]; }
        else if i > |path| { assert tail[i] == query[i - |path| - 1]; }
      }
    }
    SplitPathQueryOf(tail);
    assert tail[|path| + 1..] == query;
    ParseHttpsUrl(host, tail);
  }

  /** Text without `%` is its own unquoting. */
  lemma {:induction false} UnquoteOfPlain(s: string)
    requires '%' !in s
    ensures Unquote(s) == s
    decreases |s|
  {
    if |s| > 0 {
      UnquoteOfPlain(s[1..]);
    }
  }

  /** Unquoting the escaped form of an ASCII text gives the text back. */
  lemma {:induction false} UnquoteEscapeAll(s: string)
    requires IsAsciiText(s)
    ensures Unquote(EscapeAll(s)) == s
    decreases |s|
  {
    if |s| > 0 {
      var e := EscapeAll(s);
      var c := s[0] as int;
      assert e == Escape(s[0]) + EscapeAll(s[1..]);
      assert e[1] == HexDigit(c / 16) && e[2] == HexDigit(c % 16);
      assert HexValue(e[1]) * 16 + HexValue(e[2]) == c;
      assert e[3..] == EscapeAll(s[1..]);
      UnquoteEscapeAll(s[1..]);
    }
  }

  lemma PlusToSpaceNoop(s: string)
    requires '+' !in s
    ensures PlusToSpace(s) == s
  {
  }

  /**
   * A query holding one `name=value` pair gives the unquoted value for the
   * unquoted name, whatever escapes either is written with.
   */
  lemma FirstValueOfPair(rawName: string, rawValue: string, name: string)
    requires '&' !in rawName && '=' !in rawName && '+' !in rawName
    requires rawValue != [] && '&' !in rawValue && '+' !in rawValue
    requires Unquote(rawName) == name
    ensures FirstQueryValue(Split(rawName + "=" + rawValue, '&'), name) == Some(Unquote(rawValue))
  {
    var pair := rawName + "=" + rawValue;
    assert '&' !in pair by {
      forall i | 0 <= i < |pair|
        ensures pair[i] != '&'
      {
        if i < |rawName| { assert pair[i] == rawName[i]; }
        else if i > |rawName| { assert pair[i] == rawValue[i - |rawName| - 1]; }
      }
    }
    assert Split(pair, '&') == [pair];
    assert pair[|rawName|] == '=' && pair[..|rawName|] == rawName;
    assert IndexOf(pair, '=') == |rawName|;
    assert pair[|rawName| + 1..] == rawValue;
    PlusToSpaceNoop(rawName);
    PlusToSpaceNoop(rawValue);
  }

  /** A non-empty `v=<value>` pair is the first value of `v`. */
  lemma FirstValueOfSinglePair(id: string)
    requires id != [] && IsVideoIdText(id)
    ensures FirstQueryValue(Split("v=" + id, '&'), "v") == Some(id)
  {
    VideoIdHasNoDelimiter(id);
    UnquoteOfV();
    UnquoteOfPlain(id);
    FirstValueOfPair("v", id, "v");
    assert "v" + "=" + id == "v=" + id;
  }

  lemma VideoIdHasNoDelimiter(id: string)
    requires IsVideoIdText(id)
    ensures '%' !in id && '&' !in id && '+' !in id
  {
  }

  lemma UnquoteOfV()
    ensures Unquote("v") == "v"
  {
    UnquoteOfPlain("v");
  }

  lemma UnquoteOfEscapedV()
    ensures Unquote("%76") == "v"
  {
    assert StartsWithAsciiEscape("%76");
    assert "%76"[3..] == "";
  }

  /** An escaped text holds no `&`, `+`, `=` or `#`. */
  lemma EscapedHasNoDelimiter(s: string)
    requires IsAsciiText(s)
    ensures var e := EscapeAll(s); '&' !in e && '+' !in e && '=' !in e && '#' !in e
  {
  }

  /** An escaped name is recognised: `%76` is `v`. */
  lemma EscapedNameIsDecoded(id: string)
    requires id != [] && IsVideoIdText(id)
    ensures FirstQueryValue(Split("%76=" + id, '&'), "v") == Some(id)
  {
    VideoIdHasNoDelimiter(id);
    UnquoteOfEscapedV();
    UnquoteOfPlain(id);
    FirstValueOfPair("%76", id, "v");
    assert "%76" + "=" + id == "%76=" + id;
  }

  /** A value written entirely in `%XX` escapes is read back as the ASCII text it encodes. */
  lemma EscapedValueIsDecoded(id: string)
    requires id != [] && IsAsciiText(id)
    ensures FirstQueryValue(Split("v=" + EscapeAll(id), '&'), "v") == Some(id)
  {
    EscapedHasNoDelimiter(id);
    UnquoteOfV();
    UnquoteEscapeAll(id);
    var e := EscapeAll(id);
    FirstValueOfPair("v", e, "v");
    assert "v" + "=" + e == "v=" + e;
  }

  lemma EmbedSegments(id: string)
    requires IsVideoIdText(id)
    ensures SegmentAfterMarker(Split("/embed/" + id, '/')) == Some(id)
  {
    var path := "/embed/" + id;
    assert '/' !in id;
    assert IndexOf(path, '/') == 0;
    assert path[1..] == "embed/" + id;
    assert IndexOf(path[1..], '/') == 5;
    assert path[1..][..5] == "embed" && path[1..][6..] == id;
    assert Split(id, '/') == [id];
    assert Split(path[1..], '/') == ["embed"] + [id];
    assert path[..0] == "";
    assert Split(path, '/') == [""] + (["embed"] + [id]);
  }

  lemma WwwYoutubeHost()
    ensures Contains("www.youtube.com", "youtube")
  {
    ContainsInContext("www.", "youtube", ".com", "youtube");
    assert "www." + "youtube" + ".com" == "www.youtube.com";
  }

  lemma WatchQueryId(id: string)
    requires id != [] && IsVideoIdText(id)
    ensures IdFromWatchOrEmbed("/watch", "v=" + id) == id
  {
    FirstValueOfSinglePair(id);
  }

  lemma EmbedPathId(id: string)
    requires IsVideoIdText(id)
    ensures IdFromWatchOrEmbed("/embed/" + id, "") == id
  {
    assert Split("", '&') == [""];
    assert FirstQueryValue([""], "v") == None;
    EmbedSegments(id);
  }

  lemma ShortLinkPrefix()
    ensures "https://youtu.be/" == "https://" + "youtu.be" + "/"
  {
  }

  lemma WatchPrefix()
    ensures "https://www.youtube.com/watch?v=" == "https://" + "www.youtube.com" + "/watch" + "?" + "v="
  {
  }

  lemma EmbedPrefix()
    ensures "https://www.youtube.com/embed/" == "https://" + "www.youtube.com" + "/embed/"
  {
  }

  lemma ParseShortLink(id: string)
    requires IsVideoIdText(id)
    ensures ParseUrl("https://youtu.be/" + id) == UrlParts("https", "youtu.be", "/" + id, "")
  {
    ShortLinkPrefix();
    assert "https://youtu.be/" + id == "https://" + "youtu.be" + ("/" + id);
    ParsePathUrl("youtu.be", "/" + id);
  }

  lemma ShortLinkParts(id: string)
    requires IsVideoIdText(id)
    ensures IdFromParts(UrlParts("https", "youtu.be", "/" + id, "")) == id
  {
    HostnameOfPlainHost("youtu.be");
    StripLeadingSlash(id);
  }

  lemma StripLeadingSlash(id: string)
    requires IsVideoIdText(id)
    ensures LStripChar("/" + id, '/') == id
  {
    var path := "/" + id;
    assert path[1..] == id;
    if |id| > 0 {
      assert id[0] != '/' by { assert IsVideoIdChar(id[0]); }
    }
  }

  lemma ParseWatchLink(id: string)
    requires id != [] && IsVideoIdText(id)
    ensures ParseUrl("https://www.youtube.com/watch?v=" + id) == UrlParts("https", "www.youtube.com", "/watch", "v=" + id)
  {
    WatchPrefix();
    assert "https://www.youtube.com/watch?v=" + id == "https://" + "www.youtube.com" + ("/watch" + "?" + ("v=" + id));
    ParseQueryUrl("www.youtube.com", "/watch", "v=" + id);
  }

  lemma WatchLinkParts(id: string)
    requires id != [] && IsVideoIdText(id)
    ensures IdFromParts(UrlParts("https", "www.youtube.com", "/watch", "v=" + id)) == id
  {
    HostnameOfPlainHost("www.youtube.com");
    WatchQueryId(id);
    WwwYoutubeHost();
  }

  lemma ParseEmbedLink(id: string)
    requires IsVideoIdText(id)
    ensures ParseUrl("https://www.youtube.com/embed/" + id) == UrlParts("https", "www.youtube.com", "/embed/" + id, "")
  {
    EmbedPrefix();
    assert "https://www.youtube.com/embed/" + id == "https://" + "www.youtube.com" + ("/embed/" + id);
    ParsePathUrl("www.youtube.com", "/embed/" + id);
  }

  lemma EmbedLinkParts(id: string)
    requires IsVideoIdText(id)
    ensures IdFromParts(UrlParts("https", "www.youtube.com", "/embed/" + id, "")) == id
  {
    HostnameOfPlainHost("www.youtube.com");
    EmbedPathId(id);
    WwwYoutubeHost();
  }

  /** `https://youtu.be/<id>` yields `<id>`. */
  lemma ShortLinkRoundTrip(id: string)
    requires IsVideoIdText(id)
    ensures ExtractVideoId("https://youtu.be/" + id) == id
  {
    ParseShortLink(id);
    ShortLinkParts(id);
  }

  /** `https://www.youtube.com/watch?v=<id>` yields `<id>` for a non-empty `<id>`. */
  lemma WatchRoundTrip(id: string)
    requires id != [] && IsVideoIdText(id)
    ensures ExtractVideoId("https://www.youtube.com/watch?v=" + id) == id
  {
    ParseWatchLink(id);
    WatchLinkParts(id);
  }

  /**
   * `https://www.youtube.com/watch?v=<escaped id>` yields the ASCII text the
   * escapes encode, for a non-empty text.
   */
  lemma EscapedWatchRoundTrip(id: string)
    requires id != [] && IsAsciiText(id)
    ensures ExtractVideoId("https://www.youtube.com/watch?v=" + EscapeAll(id)) == id
  {
    ParseEscapedWatchLink(id);
    EscapedWatchLinkParts(id);
  }

  lemma ParseEscapedWatchLink(id: string)
    requires IsAsciiText(id)
    ensures ParseUrl("https://www.youtube.com/watch?v=" + EscapeAll(id)) == UrlParts("https", "www.youtube.com", "/watch", "v=" + EscapeAll(id))
  {
    var e := EscapeAll(id);
    var query := "v=" + e;
    assert forall i :: 0 <= i < |query| ==> (query[i] == '=' || query[i] == '%' || IsVideoIdChar(query[i])) by {
      forall i | 0 <= i < |query|
        ensures query[i] == '=' || query[i] == '%' || IsVideoIdChar(query[i])
      {
        if i >= 2 { assert query[i] == e[i - 2]; }
      }
    }
    WatchPrefix();
    assert "https://www.youtube.com/watch?v=" + e == "https://" + "www.youtube.com" + ("/watch" + "?" + query);
    ParseQueryUrl("www.youtube.com", "/watch", query);
  }

  lemma EscapedWatchLinkParts(id: string)
    requires id != [] && IsAsciiText(id)
    ensures IdFromParts(UrlParts("https", "www.youtube.com", "/watch", "v=" + EscapeAll(id))) == id
  {
    HostnameOfPlainHost("www.youtube.com");
    WwwYoutubeHost();
    EscapedValueIsDecoded(id);
  }

  /** `https://www.youtube.com/embed/<id>` yields `<id>`. */
  lemma EmbedRoundTrip(id: string)
    requires IsVideoIdText(id)
    ensures ExtractVideoId("https://www.youtube.com/embed/" + id) == id
  {
    ParseEmbedLink(id);
    EmbedLinkParts(id);
  }

  /**
   * A URL that starts with a run of letters and dots and then a `/` has no
   * scheme and no network location for `urlparse`, so no identifier.
   */
  lemma SchemelessHasNoId(url: string, j: nat)
    requires 0 < j < |url| && url[j] == '/'
    requires forall k :: 0 <= k < j ==> IsAsciiLetter(url[k]) || url[k] == '.'
    ensures ExtractVideoId(url) == ""
  {
    var u := Sanitize(url);
    SanitizeKeepsHead(url, j);
    NoSchemeBeforeSlash(u, j);
    assert ParseUrl(url).netloc == "";
    assert Hostname("") == None by { assert ""[0..] == ""; }
  }

  /** Sanitising leaves a head of letters and dots up to a `/` in place. */
  lemma SanitizeKeepsHead(url: string, j: nat)
    requires 0 < j < |url| && url[j] == '/'
    requires forall k :: 0 <= k < j ==> IsAsciiLetter(url[k]) || url[k] == '.'
    ensures j < |Sanitize(url)| && Sanitize(url)[j] == '/'
    ensures forall k :: 0 <= k < j ==> IsAsciiLetter(Sanitize(url)[k]) || Sanitize(url)[k] == '.'
  {
    SanitizeSplitsAtHead(url, j);
    HeadSurvives(Sanitize(url), url[..j + 1], RemoveUnsafe(url[j + 1..]), j);
  }

  /** Sanitising such a URL keeps its head and cleans only what follows the `/`. */
  lemma SanitizeSplitsAtHead(url: string, j: nat)
    requires 0 < j < |url| && url[j] == '/'
    requires forall k :: 0 <= k < j ==> IsAsciiLetter(url[k]) || url[k] == '.'
    ensures Sanitize(url) == url[..j + 1] + RemoveUnsafe(url[j + 1..])
  {
    var head, tail := url[..j + 1], url[j + 1..];
    assert url == head + tail;
    assert LStripControls(url) == url by {
      assert url[0] as int > 32;
    }
    forall i | 0 <= i < |head|
      ensures !IsUnsafe(head[i])
    {
      assert head[i] == url[i];
    }
    RemoveUnsafeNoop(head);
    RemoveUnsafeAppend(head, tail);
  }

  /** A head of letters and dots ending in `/` is still there after anything is appended to it. */
  lemma HeadSurvives(s: string, head: string, tail: string, j: nat)
    requires s == head + tail && |head| == j + 1 && head[j] == '/'
    requires forall k :: 0 <= k < j ==> IsAsciiLetter(head[k]) || head[k] == '.'
    ensures j < |s| && s[j] == '/'
    ensures forall k :: 0 <= k < j ==> IsAsciiLetter(s[k]) || s[k] == '.'
  {
  }

  /** Letters and dots up to a `/` are neither a scheme nor the `//` of a network location. */
  lemma NoSchemeBeforeSlash(u: string, j: nat)
    requires 0 < j < |u| && u[j] == '/'
    requires forall k :: 0 <= k < j ==> IsAsciiLetter(u[k]) || u[k] == '.'
    ensures SplitScheme(u) == ("", u) && SplitNetloc(u) == ("", u)
  {
    var colon := IndexOf(u, ':');
    if colon > 0 && IsAsciiLetter(u[0]) {
      assert colon > j;
      assert !IsSchemeChar(u[j]);
    }
    assert !StartsWith(u, "//") by { assert u[0] != '/'; }
  }

  /** The `www.` and host alternatives are spelled with letters and dots only. */
  lemma HostPrefixLetters(b: nat, h: nat)
    requires b < 2 && h < 3
    ensures forall k :: 0 <= k < |WwwPrefixes[b] + HostNames[h]| ==>
      IsAsciiLetter((WwwPrefixes[b] + HostNames[h])[k]) || (WwwPrefixes[b] + HostNames[h])[k] == '.'
  {
    var p := WwwPrefixes[b] + HostNames[h];
    forall k | 0 <= k < |p|
      ensures IsAsciiLetter(p[k]) || p[k] == '.'
    {
      if k < |WwwPrefixes[b]| {
        assert p[k] == WwwPrefixes[b][k];
      } else {
        assert p[k] == HostNames[h][k - |WwwPrefixes[b]|];
      }
    }
  }

  /** The `www.` and host alternatives a schemeless valid URL starts with. */
  lemma SchemelessPrefix(url: string) returns (b: nat, h: nat)
    requires IsValidYoutubeUrl(url) && SchemeIndex(url) == 2
    ensures b < 2 && h < 3 && StartsWith(url, WwwPrefixes[b] + (HostNames[h] + "/"))
  {
    assert url[|SchemePrefixes[2]|..] == url;
    b := WwwIndex(url);
    var w := HostPart(url);
    assert w == url[|WwwPrefixes[b]|..];
    h := HostIndex(w);
    StartsWithConcat(url, WwwPrefixes[b], HostNames[h] + "/");
  }

  /** Where the host of a schemeless valid URL ends. */
  lemma SchemelessHostEnd(url: string, b: nat, h: nat) returns (j: nat)
    requires b < 2 && h < 3 && StartsWith(url, WwwPrefixes[b] + (HostNames[h] + "/"))
    ensures 0 < j < |url| && url[j] == '/'
    ensures forall k :: 0 <= k < j ==> IsAsciiLetter(url[k]) || url[k] == '.'
  {
    var p := WwwPrefixes[b] + (HostNames[h] + "/");
    var prefix := WwwPrefixes[b] + HostNames[h];
    assert p == prefix + "/";
    HostPrefixLetters(b, h);
    j := |prefix|;
    assert forall k :: 0 <= k < |p| ==> url[k] == p[k];
    assert p[j] == '/';
  }

  /** A URL the validator accepts without a scheme (`youtube.com/watch?v=...`) yields no identifier. */
  lemma SchemelessValidUrlHasNoId(url: string)
    requires IsValidYoutubeUrl(url) && SchemeIndex(url) == 2
    ensures ExtractVideoId(url) == ""
  {
    var b, h := SchemelessPrefix(url);
    var j := SchemelessHostEnd(url, b, h);
    SchemelessHasNoId(url, j);
  }

  lemma WwwShortLinkPrefix()
    ensures "https://www.youtu.be/" == "https://" + "www.youtu.be" + "/"
  {
  }

  lemma WwwYoutuBeIsNotYoutube()
    ensures !Contains("www.youtu.be", "youtube")
  {
    var s := "www.youtu.be";
    forall i | 0 <= i && i + 7 <= |s|
      ensures !OccursAt(s, "youtube", i)
    {
      if i == 4 {
        assert s[i..i + 7][5] != "youtube"[5];
      } else {
        assert s[i..i + 7][0] != "youtube"[0];
      }
    }
    ContainsIff(s, "youtube");
  }

  lemma ParseWwwShortLink(id: string)
    requires IsVideoIdText(id)
    ensures ParseUrl("https://www.youtu.be/" + id) == UrlParts("https", "www.youtu.be", "/" + id, "")
  {
    WwwShortLinkPrefix();
    assert "https://www.youtu.be/" + id == "https://" + "www.youtu.be" + ("/" + id);
    ParsePathUrl("www.youtu.be", "/" + id);
  }

  /**
   * `https://www.youtu.be/<id>` passes the validator, but its host is neither
   * `youtu.be` nor a `youtube` host, so no identifier comes out.
   */
  lemma WwwShortLinkHasNoId(id: string)
    requires IsVideoIdText(id)
    ensures ExtractVideoId("https://www.youtu.be/" + id) == ""
  {
    ParseWwwShortLink(id);
    WwwShortLinkParts(id);
  }

  lemma WwwShortLinkParts(id: string)
    ensures IdFromParts(UrlParts("https", "www.youtu.be", "/" + id, "")) == ""
  {
    HostnameOfPlainHost("www.youtu.be");
    WwwYoutuBeIsNotYoutube();
  }

  /** ... although the validator accepts it whenever `<id>` is not empty. */
  lemma WwwShortLinkIsValid(id: string)
    requires id != [] && IsVideoIdText(id)
    ensures IsValidYoutubeUrl("https://www.youtu.be/" + id)
  {
    var url := "https://www.youtu.be/" + id;
    assert '\n' !in id;
    assert PatternPrefix(0, 0, 1) == "https://www.youtu.be/";
    assert StartsWith(url, PatternPrefix(0, 0, 1)) && url[21..] == id;
    PatternImpliesValid(url, 0, 0, 1);
  }

  /** `https://youtu.be/<id>` passes the validator whenever `<id>` is not empty. */
  lemma ShortLinkIsValid(id: string)
    requires id != [] && IsVideoIdText(id)
    ensures IsValidYoutubeUrl("https://youtu.be/" + id)
  {
    var url := "https://youtu.be/" + id;
    assert '\n' !in id;
    assert PatternPrefix(0, 1, 1) == "https://youtu.be/";
    assert StartsWith(url, PatternPrefix(0, 1, 1)) && url[17..] == id;
    PatternImpliesValid(url, 0, 1, 1);
  }

  /** An accepted URL is never empty: the pattern needs a host, a `/` and one more character. */
  lemma ValidUrlIsNotEmpty(url: string)
    requires IsValidYoutubeUrl(url)
    ensures url != ""
  {
    ValidImpliesPattern(url);
    var a: nat, b: nat, h: nat :| a < 3 && b < 2 && h < 3 &&
      StartsWith(url, PatternPrefix(a, b, h)) && TailMatches(url[|PatternPrefix(a, b, h)|..]);
  }
}
