/**
 * The caption decoder `vtt_to_text`: it removes markup tags from every line
 * of a WebVTT document, drops the header, cue-timing and cue-number lines and
 * blank lines, and joins what is left with single spaces.
 */
module CaptionDecoder {
  import opened Strings

  // ---------------------------------------------------------------------------
  // Markup tags: the regular expression <[^>]+>
  // ---------------------------------------------------------------------------

  /**
   * A tag starts at `i`: a `<`, at least one character that is not `>`, and a
   * later `>` (the first one after `i` closes the tag).
   */
  predicate TagAt(s: string, i: int)
    requires 0 <= i < |s|
  {
    s[i] == '<' && i + 1 < |s| && s[i + 1] != '>' && '>' in s[i + 1..]
  }

  /** No tag starts anywhere in `s`. */
  predicate TagFree(s: string) {
    forall i :: 0 <= i < |s| ==> !TagAt(s, i)
  }

  /**
   * `re.sub(r'<[^>]+>', '', s)`: scanning left to right, each tag (from a `<`
   * to the first `>` after it) is deleted; a `<` that starts no tag is kept.
   */
  function StripTags(s: string): (r: string)
    ensures |r| <= |s|
    decreases |s|
  {
    if |s| == 0 then ""
    else if s[0] == '<' then
      var k := IndexOf(s[1..], '>');
      if k > 0 then StripTags(s[k + 2..]) else [s[0]] + StripTags(s[1..])
    else [s[0]] + StripTags(s[1..])
  }

  /** Removing tags only deletes characters: whatever is in the result was in `s`. */
  lemma {:induction false} StripTagsKeepsChars(s: string, c: char)
    requires c in StripTags(s)
    ensures c in s
    decreases |s|
  {
    if s[0] == '<' && IndexOf(s[1..], '>') > 0 {
      var k := IndexOf(s[1..], '>');
      StripTagsKeepsChars(s[k + 2..], c);
      assert s[k + 2..] == s[1..][k + 1..];
    } else if c != s[0] {
      assert c in StripTags(s[1..]);
      StripTagsKeepsChars(s[1..], c);
    }
  }

  lemma TagAtShift(c: char, r: string, i: int)
    requires 0 <= i < |r|
    ensures TagAt([c] + r, i + 1) <==> TagAt(r, i)
  {
    assert ([c] + r)[i + 2..] == r[i + 1..];
  }

  /** No tag is left once the tags are removed. */
  lemma {:induction false} StripTagsIsTagFree(s: string)
    ensures TagFree(StripTags(s))
    decreases |s|
  {
    if |s| > 0 {
      var k := IndexOf(s[1..], '>');
      if s[0] == '<' && k > 0 {
        StripTagsIsTagFree(s[k + 2..]);
      } else {
        var rest := StripTags(s[1..]);
        var r := [s[0]] + rest;
        StripTagsIsTagFree(s[1..]);
        forall i | 0 <= i < |r|
          ensures !TagAt(r, i)
        {
          if i > 0 {
            TagAtShift(s[0], rest, i - 1);
          } else if s[0] == '<' && |r| > 1 {
            if k == 0 {
              assert s[1] == '>' && rest[0] == '>';
            } else if '>' in r[1..] {
              assert r[1..] == rest;
              StripTagsKeepsChars(s[1..], '>');
              assert false;
            }
          }
        }
      }
    }
  }

  /** Text without tags comes through unchanged. */
  lemma {:induction false} StripTagsOfTagFree(s: string)
    requires TagFree(s)
    ensures StripTags(s) == s
    decreases |s|
  {
    if |s| > 0 {
      forall i | 0 <= i < |s| - 1
        ensures !TagAt(s[1..], i)
      {
        TagAtShift(s[0], s[1..], i);
        assert [s[0]] + s[1..] == s;
      }
      StripTagsOfTagFree(s[1..]);
      if s[0] == '<' {
        assert !TagAt(s, 0);
        var k := IndexOf(s[1..], '>');
        assert k <= 0;
      }
      assert s == [s[0]] + s[1..];
    }
  }

  /** Removing tags twice is removing them once. */
  lemma StripTagsIdempotent(s: string)
    ensures StripTags(StripTags(s)) == StripTags(s)
  {
    StripTagsIsTagFree(s);
    StripTagsOfTagFree(StripTags(s));
  }

  /** A part of a tag-free text is tag-free. */
  lemma TagFreeSlice(s: string, a: int, b: int)
    requires 0 <= a <= b <= |s| && TagFree(s)
    ensures TagFree(s[a..b])
  {
    var t := s[a..b];
    forall i | 0 <= i < |t| && TagAt(t, i)
      ensures false
    {
      var j :| i + 1 <= j < |t| && t[j] == '>';
      assert s[a + i] == '<' && s[a + i + 1] != '>';
      assert s[a + j] == '>' && a + j > a + i;
      assert '>' in s[a + i + 1..] by { assert s[a + i + 1..][j - i - 1] == '>'; }
      assert TagAt(s, a + i);
    }
  }

  // ---------------------------------------------------------------------------
  // Cue text
  // ---------------------------------------------------------------------------

  /** One line of the document once its tags and surrounding whitespace are removed. */
  function CueText(line: string): string {
    Strip(StripTags(line))
  }

  /** The lines the decoder keeps: not blank, not the header, not a timing line, not a cue number. */
  predicate IsCaptionLine(c: string) {
    c != "" && !StartsWith(c, "WEBVTT") && !Contains(c, "-->") && !AllDigits(c)
  }

  /** What one line contributes: its cue text when that passes the four filters, else nothing. */
  function Keep(line: string): seq<string> {
    var c := CueText(line);
    if IsCaptionLine(c) then [c] else []
  }

  /** The contributions of `lines`, in order, for any per-line rule `keep`. */
  function KeptLines(lines: seq<string>, keep: string -> seq<string>): seq<string>
    decreases |lines|
  {
    if |lines| == 0 then [] else keep(lines[0]) + KeptLines(lines[1..], keep)
  }

  lemma {:induction false} KeptLinesAppend(lines: seq<string>, line: string, keep: string -> seq<string>)
    ensures KeptLines(lines + [line], keep) == KeptLines(lines, keep) + keep(line)
    decreases |lines|
  {
    if |lines| == 0 {
      assert lines + [line] == [line];
    } else {
      assert (lines + [line])[0] == lines[0];
      assert (lines + [line])[1..] == lines[1..] + [line];
      KeptLinesAppend(lines[1..], line, keep);
    }
  }

  /** The cue texts of `lines` that the decoder keeps, in order. */
  function CaptionLines(lines: seq<string>): seq<string> {
    KeptLines(lines, Keep)
  }

  lemma CaptionLinesAppend(lines: seq<string>, line: string)
    ensures CaptionLines(lines + [line]) == CaptionLines(lines) + Keep(line)
  {
    KeptLinesAppend(lines, line, Keep);
  }

  /** `vtt_to_text(vtt)`: the kept caption lines joined with single spaces. */
  function DecodedText(vtt: string): string {
    Join(CaptionLines(SplitLines(vtt)), " ")
  }

  /** One more line of the loop: it is kept exactly when its cue text passes the four filters. */
  lemma CaptionLinesStep(all: seq<string>, i: nat)
    requires i < |all|
    ensures CaptionLines(all[..i + 1]) ==
      CaptionLines(all[..i]) + (if IsCaptionLine(CueText(all[i])) then [CueText(all[i])] else [])
  {
    assert all[..i + 1] == all[..i] + [all[i]];
    CaptionLinesAppend(all[..i], all[i]);
  }

  /** The decoder, as the loop over `vtt.splitlines()` that collects the kept lines. */
  method VttToText(vtt: string) returns (text: string)
    ensures text == DecodedText(vtt)
  {
    var all := SplitLines(vtt);
    var kept: seq<string> := [];
    for i := 0 to |all|
      invariant kept == CaptionLines(all[..i])
    {
      var line := CueText(all[i]);
      CaptionLinesStep(all, i);
      if line == "" || StartsWith(line, "WEBVTT") || Contains(line, "-->") || AllDigits(line) {
        continue;
      }
      kept := kept + [line];
    }
    assert all[..|all|] == all;
    text := Join(kept, " ");
  }

  // ---------------------------------------------------------------------------
  // What the decoded lines look like
  // ---------------------------------------------------------------------------

  lemma StripTagsNoLineBreak(s: string)
    requires forall j :: 0 <= j < |s| ==> !IsLineBreak(s[j])
    ensures forall j :: 0 <= j < |StripTags(s)| ==> !IsLineBreak(StripTags(s)[j])
  {
    var r := StripTags(s);
    forall j | 0 <= j < |r|
      ensures !IsLineBreak(r[j])
    {
      StripTagsKeepsChars(s, r[j]);
    }
  }

  /** What `CueText` returns: markup-free, stripped, and on one line. */
  predicate IsCleanCue(c: string) {
    TagFree(c) && Strip(c) == c && forall j :: 0 <= j < |c| ==> !IsLineBreak(c[j])
  }

  /** Stripping keeps a tag-free text tag-free. */
  lemma StripKeepsTagFree(t: string)
    requires TagFree(t)
    ensures TagFree(Strip(t))
  {
    StripShape(t);
    TagFreeSlice(t, StripStart(t), StripStart(t) + |Strip(t)|);
  }

  /** Stripping keeps a text on one line. */
  lemma StripKeepsOneLine(t: string)
    requires forall j :: 0 <= j < |t| ==> !IsLineBreak(t[j])
    ensures forall j :: 0 <= j < |Strip(t)| ==> !IsLineBreak(Strip(t)[j])
  {
    StripShape(t);
    var a, c := StripStart(t), Strip(t);
    assert c == t[a..a + |c|];
    forall j | 0 <= j < |c|
      ensures !IsLineBreak(c[j])
    {
      assert c[j] == t[a + j];
    }
  }

  lemma CueTextIsClean(line: string)
    requires forall j :: 0 <= j < |line| ==> !IsLineBreak(line[j])
    ensures IsCleanCue(CueText(line))
  {
    var t := StripTags(line);
    StripTagsIsTagFree(line);
    StripTagsNoLineBreak(line);
    StripKeepsTagFree(t);
    StripKeepsOneLine(t);
    StripIdempotent(t);
  }

  /** When every contribution satisfies `p`, so does every kept line. */
  lemma {:induction false} KeptLinesAll(lines: seq<string>, keep: string -> seq<string>, p: string -> bool)
    requires forall k, j :: 0 <= k < |lines| && 0 <= j < |keep(lines[k])| ==> p(keep(lines[k])[j])
    ensures forall j :: 0 <= j < |KeptLines(lines, keep)| ==> p(KeptLines(lines, keep)[j])
    decreases |lines|
  {
    if |lines| > 0 {
      var head := keep(lines[0]);
      var rest := KeptLines(lines[1..], keep);
      forall k, j | 0 <= k < |lines[1..]| && 0 <= j < |keep(lines[1..][k])|
        ensures p(keep(lines[1..][k])[j])
      {
        assert lines[1..][k] == lines[k + 1];
      }
      KeptLinesAll(lines[1..], keep, p);
      forall j | 0 <= j < |head + rest|
        ensures p((head + rest)[j])
      {
        if j >= |head| {
          assert (head + rest)[j] == rest[j - |head|];
        } else {
          assert (head + rest)[j] == keep(lines[0])[j];
        }
      }
    }
  }

  /**
   * Every line the decoder keeps passes all four filters and is a clean cue:
   * no tag, no surrounding whitespace, no line break.
   */
  lemma CaptionLinesAreClean(lines: seq<string>)
    requires forall k, j :: 0 <= k < |lines| && 0 <= j < |lines[k]| ==> !IsLineBreak(lines[k][j])
    ensures forall k :: 0 <= k < |CaptionLines(lines)| ==>
      IsCaptionLine(CaptionLines(lines)[k]) && IsCleanCue(CaptionLines(lines)[k])
  {
    forall k, j | 0 <= k < |lines| && 0 <= j < |Keep(lines[k])|
      ensures IsCaptionLine(Keep(lines[k])[j]) && IsCleanCue(Keep(lines[k])[j])
    {
      CueTextIsClean(lines[k]);
    }
    KeptLinesAll(lines, Keep, c => IsCaptionLine(c) && IsCleanCue(c));
  }

  /** The decoded document is made of clean caption lines. */
  lemma DecodedLinesAreClean(vtt: string)
    ensures forall k :: 0 <= k < |CaptionLines(SplitLines(vtt))| ==>
      IsCaptionLine(CaptionLines(SplitLines(vtt))[k]) && IsCleanCue(CaptionLines(SplitLines(vtt))[k])
  {
    CaptionLinesAreClean(SplitLines(vtt));
  }

  /**
   * A line of plain caption text: no markup, and once stripped it is either
   * blank or none of the header, a cue timing and a cue number. Indentation
   * and blank lines are allowed.
   */
  predicate IsPlainLine(line: string) {
    '<' !in line && (Strip(line) == "" || IsCaptionLine(Strip(line)))
  }

  /** Each line stripped of surrounding whitespace, the blank ones dropped, in order. */
  function StrippedNonBlank(lines: seq<string>): seq<string>
    decreases |lines|
  {
    if |lines| == 0 then []
    else (if Strip(lines[0]) == "" then [] else [Strip(lines[0])]) + StrippedNonBlank(lines[1..])
  }

  lemma TagFreeOfNoOpen(l: string)
    requires '<' !in l
    ensures TagFree(l)
  {
    forall i | 0 <= i < |l| ensures !TagAt(l, i) { assert l[i] != '<'; }
  }

  /** The decoder keeps exactly the stripped, non-blank plain lines. */
  lemma {:induction false} CaptionLinesOfPlain(lines: seq<string>)
    requires forall k :: 0 <= k < |lines| ==> IsPlainLine(lines[k])
    ensures CaptionLines(lines) == StrippedNonBlank(lines)
    decreases |lines|
  {
    if |lines| > 0 {
      var l := lines[0];
      TagFreeOfNoOpen(l);
      StripTagsOfTagFree(l);
      assert CueText(l) == Strip(l);
      assert Keep(l) == if Strip(l) == "" then [] else [Strip(l)];
      CaptionLinesOfPlain(lines[1..]);
    }
  }

  /**
   * Decoding plain text — markup-free lines, none of which is a header, a cue
   * timing or a cue number — gives its non-blank lines, stripped, joined with
   * single spaces.
   */
  lemma DecodePlainText(vtt: string)
    requires forall k :: 0 <= k < |SplitLines(vtt)| ==> IsPlainLine(SplitLines(vtt)[k])
    ensures DecodedText(vtt) == Join(StrippedNonBlank(SplitLines(vtt)), " ")
  {
    CaptionLinesOfPlain(SplitLines(vtt));
  }

  /** Joining non-empty pieces keeps the first character of the first and the last character of the last. */
  lemma {:induction false} JoinEnds(parts: seq<string>, sep: string)
    requires |parts| > 0 && forall k :: 0 <= k < |parts| ==> parts[k] != ""
    ensures var j := Join(parts, sep);
      |j| > 0 && j[0] == parts[0][0] && j[|j| - 1] == parts[|parts| - 1][|parts[|parts| - 1]| - 1]
    decreases |parts|
  {
    if |parts| > 1 {
      JoinEnds(parts[1..], sep);
    }
  }

  /**
   * The decoded text is already stripped: it is empty, or it starts with the
   * first character of a kept line and ends with the last of one, and kept
   * lines are stripped.
   */
  lemma DecodedTextIsStripped(vtt: string)
    ensures Strip(DecodedText(vtt)) == DecodedText(vtt)
  {
    var lines := CaptionLines(SplitLines(vtt));
    DecodedLinesAreClean(vtt);
    if |lines| > 0 {
      JoinEnds(lines, " ");
      var first, last := lines[0], lines[|lines| - 1];
      StripEnds(first);
      StripEnds(last);
    }
    StripNoop(DecodedText(vtt));
  }
}
