/**
 * `clean_transcript`: remove the `[...]` and `(...)` spans that sit on one
 * line, strip the text, split it after sentence ends, capitalise every
 * sentence and join the sentences with single spaces. The regular
 * expressions are written out as scanners over ASCII text; `.` matches
 * every character except a newline, as in Python without `re.DOTALL`.
 */
module TextAgent {
  import opened Strings

  // ---------------------------------------------------------------------------
  // Spans: `re.sub(r'\[.*?\]', '', s)` and `re.sub(r'\(.*?\)', '', s)`
  // ---------------------------------------------------------------------------

  /** Every `x` in `t` comes after a newline: the first line of `t` holds no `x`. */
  predicate FirstLineHasNo(t: string, x: char) {
    forall j :: 0 <= j < |t| && t[j] == x ==> '\n' in t[..j]
  }

  /** No `open` is followed later on the same line by `close`. */
  predicate NoSpan(s: string, open: char, close: char) {
    forall i :: 0 <= i < |s| && s[i] == open ==> FirstLineHasNo(s[i + 1..], close)
  }

  /**
   * Where the lazy `.*?` followed by `close` stops in the text after an
   * opening character: the index of the first `close`, when no newline comes
   * before it, else -1.
   */
  function SpanEnd(t: string, close: char): (k: int)
    requires close != '\n'
    ensures -1 <= k < |t|
    ensures k >= 0 ==> t[k] == close && '\n' !in t[..k]
    ensures k < 0 ==> FirstLineHasNo(t, close)
    decreases |t|
  {
    if |t| == 0 then -1
    else if t[0] == close then 0
    else if t[0] == '\n' then
      assert forall j :: 0 < j < |t| ==> t[..j][0] == '\n';
      -1
    else
      var k := SpanEnd(t[1..], close);
      FirstLineCons(t[0], t[1..], close);
      assert t == [t[0]] + t[1..];
      if k < 0 then -1
      else
        assert t[..k + 1] == [t[0]] + t[1..][..k];
        k + 1
  }

  /** The first line of `[ch] + u`: it ends at once on a newline, and otherwise continues into `u`. */
  lemma FirstLineCons(ch: char, u: string, x: char)
    requires x != '\n'
    ensures FirstLineHasNo([ch] + u, x) <==> ch == '\n' || (ch != x && FirstLineHasNo(u, x))
  {
    var t := [ch] + u;
    forall j | 0 < j < |t| ensures t[..j] == [ch] + u[..j - 1] && t[j] == u[j - 1] {
    }
    if FirstLineHasNo(t, x) && ch != '\n' {
      assert ch != x by {
        assert t[0] == ch && t[..0] == [];
      }
      forall j | 0 <= j < |u| && u[j] == x ensures '\n' in u[..j] {
        assert t[j + 1] == x;
        assert '\n' in t[..j + 1];
      }
    }
    if ch == '\n' {
      forall j | 0 <= j < |t| && t[j] == x ensures '\n' in t[..j] {
        assert t[..j][0] == '\n';
      }
    } else if ch != x && FirstLineHasNo(u, x) {
      forall j | 0 <= j < |t| && t[j] == x ensures '\n' in t[..j] {
        assert '\n' in u[..j - 1];
      }
    }
  }

  /** The spans are checked from the first character of `[ch] + u`, then from every later one. */
  lemma NoSpanCons(ch: char, u: string, open: char, close: char)
    ensures NoSpan([ch] + u, open, close) <==> NoSpan(u, open, close) && (ch == open ==> FirstLineHasNo(u, close))
  {
    var s := [ch] + u;
    assert s[1..] == u;
    forall i | 0 < i < |s| ensures s[i] == u[i - 1] && s[i + 1..] == u[i..] {
    }
    if NoSpan(s, open, close) {
      forall i | 0 <= i < |u| && u[i] == open ensures FirstLineHasNo(u[i + 1..], close) {
        assert s[i + 1] == open;
      }
      if ch == open {
        assert s[0] == open;
      }
    }
    if NoSpan(u, open, close) && (ch == open ==> FirstLineHasNo(u, close)) {
      forall i | 0 <= i < |s| && s[i] == open ensures FirstLineHasNo(s[i + 1..], close) {
        if i > 0 {
          assert u[i - 1] == open;
          assert FirstLineHasNo(u[i - 1 + 1..], close);
          assert s[i + 1..] == u[i..];
        } else {
          assert s[i + 1..] == u;
        }
      }
    }
  }

  /** A suffix of text without spans has none. */
  lemma NoSpanSuffix(s: string, n: nat, open: char, close: char)
    requires n <= |s| && NoSpan(s, open, close)
    ensures NoSpan(s[n..], open, close)
  {
    forall i | 0 <= i < |s[n..]| && s[n..][i] == open ensures FirstLineHasNo(s[n..][i + 1..], close) {
      assert s[n..][i + 1..] == s[n + i + 1..];
    }
  }

  /** A prefix of text without spans has none. */
  lemma NoSpanPrefix(s: string, n: nat, open: char, close: char)
    requires n <= |s| && NoSpan(s, open, close)
    ensures NoSpan(s[..n], open, close)
  {
    forall i | 0 <= i < n && s[i] == open ensures FirstLineHasNo(s[..n][i + 1..], close) {
      var t := s[i + 1..];
      var t' := s[..n][i + 1..];
      forall j | 0 <= j < |t'| && t'[j] == close ensures '\n' in t'[..j] {
        assert t[j] == close;
        assert t'[..j] == t[..j];
      }
    }
  }

  /** Dropping a newline-free prefix keeps the first line free of `x`. */
  lemma FirstLineSkip(t: string, n: nat, x: char)
    requires n <= |t| && '\n' !in t[..n] && FirstLineHasNo(t, x)
    ensures FirstLineHasNo(t[n..], x)
  {
    forall j | 0 <= j < |t[n..]| && t[n..][j] == x ensures '\n' in t[n..][..j] {
      assert t[n + j] == x;
      assert forall i :: 0 <= i < n ==> t[i] == t[..n][i];
      var m :| 0 <= m < n + j && t[..n + j][m] == '\n';
      assert m >= n;
      assert t[n..][..j][m - n] == '\n';
    }
  }

  /** `re.sub(open + '.*?' + close, '', s)`: every span that closes on its own line is deleted. */
  function RemoveSpans(s: string, open: char, close: char): (r: string)
    requires open != '\n' && close != '\n'
    ensures |r| <= |s|
    decreases |s|
  {
    if |s| == 0 then ""
    else if s[0] == open && SpanEnd(s[1..], close) >= 0 then
      RemoveSpans(s[SpanEnd(s[1..], close) + 2..], open, close)
    else [s[0]] + RemoveSpans(s[1..], open, close)
  }

  /** The characters a span removal deletes never include a newline. */
  lemma SpanHasNoNewline(s: string, open: char, close: char)
    requires open != '\n' && close != '\n'
    requires |s| > 0 && s[0] == open && SpanEnd(s[1..], close) >= 0
    ensures '\n' !in s[..SpanEnd(s[1..], close) + 2]
  {
    var k := SpanEnd(s[1..], close);
    assert s[..k + 2] == [open] + s[1..][..k] + [close];
  }

  /** Removing spans keeps the first line of a text free of any `x` it was free of. */
  lemma {:induction false} RemoveSpansKeepsFirstLine(t: string, open: char, close: char, x: char)
    requires open != '\n' && close != '\n' && x != '\n'
    requires FirstLineHasNo(t, x)
    ensures FirstLineHasNo(RemoveSpans(t, open, close), x)
    decreases |t|
  {
    if |t| > 0 {
      if t[0] == open && SpanEnd(t[1..], close) >= 0 {
        var n := SpanEnd(t[1..], close) + 2;
        SpanHasNoNewline(t, open, close);
        FirstLineSkip(t, n, x);
        RemoveSpansKeepsFirstLine(t[n..], open, close, x);
      } else {
        assert t == [t[0]] + t[1..];
        FirstLineCons(t[0], t[1..], x);
        FirstLineCons(t[0], RemoveSpans(t[1..], open, close), x);
        if t[0] != '\n' {
          RemoveSpansKeepsFirstLine(t[1..], open, close, x);
        }
      }
    }
  }

  /** After the removal no `open` is followed on its line by `close`. */
  lemma {:induction false} RemoveSpansLeavesNoSpan(s: string, open: char, close: char)
    requires open != '\n' && close != '\n'
    ensures NoSpan(RemoveSpans(s, open, close), open, close)
    decreases |s|
  {
    if |s| > 0 {
      if s[0] == open && SpanEnd(s[1..], close) >= 0 {
        RemoveSpansLeavesNoSpan(s[SpanEnd(s[1..], close) + 2..], open, close);
      } else {
        RemoveSpansLeavesNoSpan(s[1..], open, close);
        NoSpanCons(s[0], RemoveSpans(s[1..], open, close), open, close);
        if s[0] == open {
          RemoveSpansKeepsFirstLine(s[1..], open, close, close);
        }
      }
    }
  }

  /** Removing one kind of span keeps text free of another kind. */
  lemma {:induction false} RemoveSpansKeepsNoSpan(s: string, open: char, close: char, open2: char, close2: char)
    requires open != '\n' && close != '\n' && close2 != '\n'
    requires NoSpan(s, open2, close2)
    ensures NoSpan(RemoveSpans(s, open, close), open2, close2)
    decreases |s|
  {
    if |s| > 0 {
      if s[0] == open && SpanEnd(s[1..], close) >= 0 {
        var n := SpanEnd(s[1..], close) + 2;
        NoSpanSuffix(s, n, open2, close2);
        RemoveSpansKeepsNoSpan(s[n..], open, close, open2, close2);
      } else {
        assert s == [s[0]] + s[1..];
        NoSpanCons(s[0], s[1..], open2, close2);
        RemoveSpansKeepsNoSpan(s[1..], open, close, open2, close2);
        NoSpanCons(s[0], RemoveSpans(s[1..], open, close), open2, close2);
        if s[0] == open2 {
          RemoveSpansKeepsFirstLine(s[1..], open, close, close2);
        }
      }
    }
  }

  /** Text without spans is left as it is. */
  lemma {:induction false} RemoveSpansOfNoSpan(s: string, open: char, close: char)
    requires open != '\n' && close != '\n'
    requires NoSpan(s, open, close)
    ensures RemoveSpans(s, open, close) == s
    decreases |s|
  {
    if |s| > 0 {
      assert s == [s[0]] + s[1..];
      NoSpanCons(s[0], s[1..], open, close);
      if s[0] == open {
        assert SpanEnd(s[1..], close) < 0;
      }
      RemoveSpansOfNoSpan(s[1..], open, close);
    }
  }

  // ---------------------------------------------------------------------------
  // Sentences: `re.split('(?<=[.!?]) +', s)`, `capitalize` and `" ".join`
  // ---------------------------------------------------------------------------

  predicate IsSentenceEnd(c: char) {
    c == '.' || c == '!' || c == '?'
  }

  /** `(?<=[.!?]) +` can start at `i`: a space directly after a sentence end. */
  predicate BreaksAt(s: string, i: int) {
    0 < i < |s| && IsSentenceEnd(s[i - 1]) && s[i] == ' '
  }

  /** No split point anywhere in `p`. */
  predicate NoBreakIn(p: string) {
    forall j :: 0 <= j < |p| ==> !BreaksAt(p, j)
  }

  /** The leftmost split point at or after `from`, or `|s|` when there is none. */
  function FirstBreak(s: string, from: nat): (b: nat)
    requires from <= |s|
    ensures from <= b <= |s|
    ensures b < |s| ==> BreaksAt(s, b)
    ensures forall j :: from <= j < b ==> !BreaksAt(s, j)
    decreases |s| - from
  {
    if from == |s| then |s|
    else if BreaksAt(s, from) then from
    else FirstBreak(s, from + 1)
  }

  /** Where the greedy ` +` starting at `i` stops: the end of the run of spaces. */
  function RunEnd(s: string, i: nat): (e: nat)
    requires i <= |s|
    ensures i <= e <= |s|
    ensures forall j :: i <= j < e ==> s[j] == ' '
    ensures e == |s| || s[e] != ' '
    decreases |s| - i
  {
    if i < |s| && s[i] == ' ' then RunEnd(s, i + 1) else i
  }

  /**
   * `re.split('(?<=[.!?]) +', s)`: cut at every run of spaces that follows a
   * sentence end, dropping the run.
   */
  function SplitSentences(s: string): (parts: seq<string>)
    ensures |parts| >= 1
    // no piece holds a split point of its own
    ensures forall k :: 0 <= k < |parts| ==> NoBreakIn(parts[k])
    // every piece but the last is a whole sentence
    ensures forall k :: 0 <= k < |parts| - 1 ==> parts[k] != "" && IsSentenceEnd(parts[k][|parts[k]| - 1])
    // the whole run of spaces goes: no later piece starts with a space
    ensures forall k :: 0 < k < |parts| ==> parts[k] == "" || parts[k][0] != ' '
    // the first piece is where the text starts
    ensures |parts[0]| <= |s| && parts[0] == s[..|parts[0]|]
    decreases |s|
  {
    var b := FirstBreak(s, 0);
    if b == |s| then
      assert forall j :: 0 <= j < |s| ==> !BreaksAt(s, j);
      [s]
    else
      var e := RunEnd(s, b);
      var rest := SplitSentences(s[e..]);
      assert forall j :: 0 <= j < b ==> !BreaksAt(s[..b], j) by {
        forall j | BreaksAt(s[..b], j) ensures false {
          assert BreaksAt(s, j);
        }
      }
      assert forall k :: 0 < k < |rest| + 1 ==> ([s[..b]] + rest)[k] == rest[k - 1];
      [s[..b]] + rest
  }

  /** `str.capitalize` on ASCII: the first character upper-cased, every other one lower-cased. */
  function Capitalize(p: string): (r: string)
    ensures |r| == |p|
    ensures |p| > 0 ==> r[0] == UpperChar(p[0])
    ensures forall i :: 0 < i < |p| ==> r[i] == LowerChar(p[i])
  {
    if |p| == 0 then "" else [UpperChar(p[0])] + Lower(p[1..])
  }

  /** `[s.capitalize() for s in sentences]`. */
  function CapitalizeAll(ps: seq<string>): (qs: seq<string>)
    ensures |qs| == |ps| && forall k :: 0 <= k < |ps| ==> qs[k] == Capitalize(ps[k])
  {
    seq(|ps|, k requires 0 <= k < |ps| => Capitalize(ps[k]))
  }

  /** The text before the sentence split: spans removed, then stripped. */
  function Unspanned(transcript: string): string {
    Strip(RemoveSpans(RemoveSpans(transcript, '[', ']'), '(', ')'))
  }

  /** `clean_transcript(transcript)`: split the unspanned text into sentences, capitalise each, join with spaces. */
  function CleanTranscript(transcript: string): string {
    Join(CapitalizeAll(SplitSentences(Unspanned(transcript))), " ")
  }

  // ---------------------------------------------------------------------------
  // An independent reading of the split and join: a left-to-right scan that
  // keeps the first space after a sentence end and drops the rest of the run.
  // ---------------------------------------------------------------------------

  datatype Mode = Plain | AfterEnd | InRun

  function NextMode(mode: Mode, c: char): Mode {
    if c == ' ' then (if mode == Plain then Plain else InRun)
    else if IsSentenceEnd(c) then AfterEnd
    else Plain
  }

  /** Every run of spaces that directly follows `.`, `!` or `?` shrinks to one space; nothing else changes. */
  function Collapse(s: string, mode: Mode): (r: string)
    ensures |r| <= |s|
    decreases |s|
  {
    if |s| == 0 then ""
    else if s[0] == ' ' && mode == InRun then Collapse(s[1..], InRun)
    else [s[0]] + Collapse(s[1..], NextMode(mode, s[0]))
  }

  /** The mode after a stretch of text in which nothing is dropped. */
  function ModeAfter(x: string, mode: Mode): Mode {
    if |x| == 0 then mode
    else if IsSentenceEnd(x[|x| - 1]) then AfterEnd
    else Plain
  }

  /** A stretch without split points has none after its first character either. */
  lemma NoBreakInTail(x: string)
    requires |x| > 0 && NoBreakIn(x)
    ensures NoBreakIn(x[1..])
    ensures |x| > 1 && x[1] == ' ' ==> !IsSentenceEnd(x[0])
  {
    forall j | 0 <= j < |x| - 1 ensures !BreaksAt(x[1..], j) {
      assert !BreaksAt(x, j + 1);
    }
    if |x| > 1 {
      assert !BreaksAt(x, 1);
    }
  }

  /** One step of the scan on a character it keeps. */
  lemma CollapseKeeps(c: char, z: string, mode: Mode)
    requires !(c == ' ' && mode == InRun)
    ensures Collapse([c] + z, mode) == [c] + Collapse(z, NextMode(mode, c))
  {
    assert ([c] + z)[1..] == z;
  }

  /** A stretch without split points passes through the scan unchanged. */
  lemma {:induction false} CollapseNoBreak(x: string, y: string, mode: Mode)
    requires NoBreakIn(x)
    requires mode == Plain || |x| == 0 || x[0] != ' '
    ensures Collapse(x + y, mode) == x + Collapse(y, ModeAfter(x, mode))
    decreases |x|
  {
    if |x| > 0 {
      var rest := x[1..];
      var m := NextMode(mode, x[0]);
      NoBreakInTail(x);
      assert x + y == [x[0]] + (rest + y);
      CollapseKeeps(x[0], rest + y, mode);
      CollapseNoBreak(rest, y, m);
      assert ModeAfter(rest, m) == ModeAfter(x, mode) by {
        if |rest| > 0 {
          assert rest[|rest| - 1] == x[|x| - 1];
        }
      }
      assert x == [x[0]] + rest;
    } else {
      assert x + y == y;
    }
  }

  /** Once inside a run after a sentence end, further spaces are dropped. */
  lemma {:induction false} CollapseDropsRun(sp: string, z: string)
    requires forall j :: 0 <= j < |sp| ==> sp[j] == ' '
    ensures Collapse(sp + z, InRun) == Collapse(z, InRun)
    decreases |sp|
  {
    if |sp| > 0 {
      assert (sp + z)[0] == ' ';
      assert (sp + z)[1..] == sp[1..] + z;
      CollapseDropsRun(sp[1..], z);
    } else {
      assert sp + z == z;
    }
  }

  /** A text that does not start with a space is scanned the same way from every mode. */
  lemma CollapseModeIrrelevant(z: string, mode: Mode)
    requires |z| == 0 || z[0] != ' '
    ensures Collapse(z, mode) == Collapse(z, Plain)
  {
  }

  /** The text before the first split point has no split point of its own. */
  lemma NoBreakBefore(t: string, b: nat)
    requires b <= |t| && forall j :: 0 <= j < b ==> !BreaksAt(t, j)
    ensures NoBreakIn(t[..b])
  {
    forall j | 0 <= j < b ensures !BreaksAt(t[..b], j) {
      assert !BreaksAt(t, j);
    }
  }

  /** The scan over a split point and its run: the first space is kept, the run after it dropped. */
  lemma CollapseAtBreak(t: string, b: nat, e: nat)
    requires b < e <= |t| && forall j :: b <= j < e ==> t[j] == ' '
    requires e == |t| || t[e] != ' '
    ensures Collapse(t[b..], AfterEnd) == " " + Collapse(t[e..], Plain)
  {
    assert t[b..] == [' '] + t[b + 1..];
    CollapseKeeps(' ', t[b + 1..], AfterEnd);
    assert t[b + 1..] == t[b + 1..e] + t[e..];
    CollapseDropsRun(t[b + 1..e], t[e..]);
    CollapseModeIrrelevant(t[e..], InRun);
  }

  /** One step of the split: the first sentence, then the split of what follows its run of spaces. */
  lemma SplitSentencesStep(t: string)
    requires FirstBreak(t, 0) < |t|
    ensures SplitSentences(t) == [t[..FirstBreak(t, 0)]] + SplitSentences(t[RunEnd(t, FirstBreak(t, 0))..])
  {
  }

  /** Text without a split point is one sentence, left as it is. */
  lemma JoinSplitNoBreak(t: string)
    requires FirstBreak(t, 0) == |t|
    ensures Join(SplitSentences(t), " ") == Collapse(t, Plain)
  {
    NoBreakBefore(t, |t|);
    assert t[..|t|] == t;
    CollapseNoBreak(t, "", Plain);
    assert t + "" == t;
  }

  /** Up to the first split point the scan copies the text, and it arrives there just after a sentence end. */
  lemma CollapseBeforeBreak(t: string, b: nat)
    requires 0 < b <= |t| && IsSentenceEnd(t[b - 1])
    requires forall j :: 0 <= j < b ==> !BreaksAt(t, j)
    ensures Collapse(t, Plain) == t[..b] + Collapse(t[b..], AfterEnd)
  {
    var x, y := t[..b], t[b..];
    assert t == x + y;
    assert x[b - 1] == t[b - 1];
    NoBreakBefore(t, b);
    CollapseSentencePrefix(x, y, t);
  }

  /** A first piece without split points that ends a sentence is copied, and the scan goes on after a sentence end. */
  lemma CollapseSentencePrefix(x: string, y: string, t: string)
    requires t == x + y && NoBreakIn(x) && |x| > 0 && IsSentenceEnd(x[|x| - 1])
    ensures Collapse(t, Plain) == x + Collapse(y, AfterEnd)
  {
    CollapseNoBreak(x, y, Plain);
  }

  /** Regrouping the two descriptions of the text at a split point. */
  lemma EqChain(j: string, c: string, x: string, c1: string, tail: string)
    requires j == x + " " + tail && c1 == " " + tail && c == x + c1
    ensures j == c
  {
  }

  /** At the first split point, the join and the scan both write the first sentence and one space. */
  lemma JoinSplitAtBreak(t: string, b: nat, e: nat, tail: string)
    requires b == FirstBreak(t, 0) && b < |t| && e == RunEnd(t, b)
    requires Join(SplitSentences(t[e..]), " ") == tail == Collapse(t[e..], Plain)
    ensures Join(SplitSentences(t), " ") == Collapse(t, Plain)
  {
    var x := t[..b];
    var rest := SplitSentences(t[e..]);
    assert Join(SplitSentences(t), " ") == x + " " + tail by {
      SplitSentencesStep(t);
      JoinCons(x, rest, " ");
    }
    CollapseAtBreak(t, b, e);
    CollapseBeforeBreak(t, b);
    EqChain(Join(SplitSentences(t), " "), Collapse(t, Plain), x, Collapse(t[b..], AfterEnd), tail);
  }

  /** The split followed by the join with single spaces is the collapsing scan. */
  lemma {:induction false} JoinSplitSentences(t: string)
    ensures Join(SplitSentences(t), " ") == Collapse(t, Plain)
    decreases |t|
  {
    var b := FirstBreak(t, 0);
    if b == |t| {
      JoinSplitNoBreak(t);
    } else {
      var e := RunEnd(t, b);
      JoinSplitSentences(t[e..]);
      JoinSplitAtBreak(t, b, e, Collapse(t[e..], Plain));
    }
  }

  lemma LowerCharTwice(c: char)
    ensures LowerChar(LowerChar(c)) == LowerChar(c)
    ensures LowerChar(UpperChar(c)) == LowerChar(c)
    ensures UpperChar(UpperChar(c)) == UpperChar(c)
    ensures UpperChar(LowerChar(c)) == UpperChar(c)
  {
  }

  /** Capitalising changes only the case of letters. */
  lemma LowerCapitalize(p: string)
    ensures Lower(Capitalize(p)) == Lower(p)
  {
    var r := Capitalize(p);
    forall i | 0 <= i < |p| ensures LowerChar(r[i]) == LowerChar(p[i]) {
      LowerCharTwice(p[i]);
    }
  }

  /** Capitalising twice is capitalising once. */
  lemma CapitalizeIdempotent(p: string)
    ensures Capitalize(Capitalize(p)) == Capitalize(p)
  {
    var r := Capitalize(p);
    var rr := Capitalize(r);
    forall i | 0 <= i < |p| ensures rr[i] == r[i] {
      LowerCharTwice(p[i]);
    }
  }

  /** Joining pieces that agree up to case gives texts that agree up to case. */
  lemma {:induction false} LowerJoin(qs: seq<string>, ps: seq<string>)
    requires |qs| == |ps|
    requires forall k :: 0 <= k < |ps| ==> Lower(qs[k]) == Lower(ps[k])
    ensures Lower(Join(qs, " ")) == Lower(Join(ps, " "))
    decreases |ps|
  {
    if |ps| > 1 {
      LowerJoin(qs[1..], ps[1..]);
      JoinCons(qs[0], qs[1..], " ");
      JoinCons(ps[0], ps[1..], " ");
      assert qs == [qs[0]] + qs[1..];
      assert ps == [ps[0]] + ps[1..];
      LowerAppend(qs[0] + " ", Join(qs[1..], " "));
      LowerAppend(qs[0], " ");
      LowerAppend(ps[0] + " ", Join(ps[1..], " "));
      LowerAppend(ps[0], " ");
    }
  }


  /**
   * Up to the case of letters, the cleaned transcript is the unspanned,
   * stripped text with every run of spaces after a sentence end shrunk to one
   * space: every other character keeps its place and order.
   */
  lemma CleanKeepsText(transcript: string)
    ensures Lower(CleanTranscript(transcript)) == Lower(Collapse(Unspanned(transcript), Plain))
  {
    var t := Unspanned(transcript);
    var ps := SplitSentences(t);
    forall k | 0 <= k < |ps| ensures Lower(CapitalizeAll(ps)[k]) == Lower(ps[k]) {
      LowerCapitalize(ps[k]);
    }
    LowerJoin(CapitalizeAll(ps), ps);
    JoinSplitSentences(t);
  }

  // ---------------------------------------------------------------------------
  // No span survives the later steps
  // ---------------------------------------------------------------------------

  /** Stripping keeps text free of spans. */
  lemma StripKeepsNoSpan(s: string, open: char, close: char)
    requires NoSpan(s, open, close)
    ensures NoSpan(Strip(s), open, close)
  {
    StripShape(s);
    var a := StripStart(s);
    var n := |Strip(s)|;
    NoSpanSuffix(s, a, open, close);
    NoSpanPrefix(s[a..], n, open, close);
    assert s[a..][..n] == s[a..a + n];
  }

  /** The scan only drops spaces, so the first line stays free of `x`. */
  lemma {:induction false} CollapseKeepsFirstLine(t: string, mode: Mode, x: char)
    requires x != '\n' && x != ' ' && FirstLineHasNo(t, x)
    ensures FirstLineHasNo(Collapse(t, mode), x)
    decreases |t|
  {
    if |t| > 0 {
      assert t == [t[0]] + t[1..];
      FirstLineCons(t[0], t[1..], x);
      if t[0] == ' ' && mode == InRun {
        CollapseKeepsFirstLine(t[1..], InRun, x);
      } else {
        CollapseKeeps(t[0], t[1..], mode);
        FirstLineCons(t[0], Collapse(t[1..], NextMode(mode, t[0])), x);
        if t[0] != '\n' {
          CollapseKeepsFirstLine(t[1..], NextMode(mode, t[0]), x);
        }
      }
    }
  }

  /** The scan keeps text free of spans. */
  lemma {:induction false} CollapseKeepsNoSpan(t: string, mode: Mode, open: char, close: char)
    requires close != '\n' && close != ' ' && NoSpan(t, open, close)
    ensures NoSpan(Collapse(t, mode), open, close)
    decreases |t|
  {
    if |t| > 0 {
      assert t == [t[0]] + t[1..];
      NoSpanCons(t[0], t[1..], open, close);
      var m := if t[0] == ' ' && mode == InRun then InRun else NextMode(mode, t[0]);
      CollapseKeepsNoSpan(t[1..], m, open, close);
      if !(t[0] == ' ' && mode == InRun) {
        CollapseKeeps(t[0], t[1..], mode);
        NoSpanCons(t[0], Collapse(t[1..], m), open, close);
        if t[0] == open {
          CollapseKeepsFirstLine(t[1..], m, close);
        }
      }
    }
  }

  /** For a character that is not a letter, agreeing up to case is agreeing outright. */
  lemma SameCaseClass(a: char, b: char, ch: char)
    requires LowerChar(a) == LowerChar(b) && !IsAsciiLetter(ch)
    ensures a == ch <==> b == ch
  {
  }

  /** Changing the case of letters keeps the first line free of a non-letter `x`. */
  lemma FirstLineUpToCase(u: string, v: string, x: char)
    requires |u| == |v| && forall i :: 0 <= i < |u| ==> LowerChar(u[i]) == LowerChar(v[i])
    requires !IsAsciiLetter(x) && FirstLineHasNo(u, x)
    ensures FirstLineHasNo(v, x)
  {
    forall j | 0 <= j < |v| && v[j] == x ensures '\n' in v[..j] {
      SameCaseClass(u[j], v[j], x);
      var m :| 0 <= m < j && u[..j][m] == '\n';
      SameCaseClass(u[m], v[m], '\n');
      assert v[..j][m] == '\n';
    }
  }

  /** Changing the case of letters keeps text free of spans between non-letters. */
  lemma NoSpanUpToCase(x: string, y: string, open: char, close: char)
    requires Lower(x) == Lower(y) && !IsAsciiLetter(open) && !IsAsciiLetter(close)
    requires NoSpan(x, open, close)
    ensures NoSpan(y, open, close)
  {
    assert |x| == |Lower(x)| == |y|;
    forall i | 0 <= i < |y| && y[i] == open ensures FirstLineHasNo(y[i + 1..], close) {
      assert LowerChar(x[i]) == Lower(x)[i] == LowerChar(y[i]);
      SameCaseClass(x[i], y[i], open);
      var u, v := x[i + 1..], y[i + 1..];
      forall k | 0 <= k < |u| ensures LowerChar(u[k]) == LowerChar(v[k]) {
        assert Lower(x)[i + 1 + k] == Lower(y)[i + 1 + k];
      }
      FirstLineUpToCase(u, v, close);
    }
  }

  /**
   * No `[` of the cleaned transcript is followed on its line by `]`, and no
   * `(` by `)`.
   */
  lemma CleanLeavesNoSpans(transcript: string)
    ensures NoSpan(CleanTranscript(transcript), '[', ']')
    ensures NoSpan(CleanTranscript(transcript), '(', ')')
  {
    CollapsedLeavesNoSpans(transcript);
    CleanKeepsText(transcript);
    NoSpansUpToCase(Collapse(Unspanned(transcript), Plain), CleanTranscript(transcript));
  }

  /** Both kinds of span at once, so that the cleaned text is compared with the scan only once. */
  lemma NoSpansUpToCase(x: string, y: string)
    requires Lower(x) == Lower(y)
    requires NoSpan(x, '[', ']') && NoSpan(x, '(', ')')
    ensures NoSpan(y, '[', ']') && NoSpan(y, '(', ')')
  {
    NoSpanUpToCase(x, y, '[', ']');
    NoSpanUpToCase(x, y, '(', ')');
  }

  /** The spans are gone before the case changes. */
  lemma CollapsedLeavesNoSpans(transcript: string)
    ensures NoSpan(Collapse(Unspanned(transcript), Plain), '[', ']')
    ensures NoSpan(Collapse(Unspanned(transcript), Plain), '(', ')')
  {
    var x1 := RemoveSpans(transcript, '[', ']');
    var x2 := RemoveSpans(x1, '(', ')');
    RemoveSpansLeavesNoSpan(transcript, '[', ']');
    RemoveSpansKeepsNoSpan(x1, '(', ')', '[', ']');
    RemoveSpansLeavesNoSpan(x1, '(', ')');
    var t := Strip(x2);
    StripKeepsNoSpan(x2, '[', ']');
    StripKeepsNoSpan(x2, '(', ')');
    CollapseKeepsNoSpan(t, Plain, '[', ']');
    CollapseKeepsNoSpan(t, Plain, '(', ')');
  }

  // ---------------------------------------------------------------------------
  // The result is stripped
  // ---------------------------------------------------------------------------

  /** A last character that is not a space survives the scan, at the end. */
  lemma {:induction false} CollapseLast(t: string, mode: Mode)
    requires |t| > 0 && t[|t| - 1] != ' '
    ensures |Collapse(t, mode)| > 0 && Collapse(t, mode)[|Collapse(t, mode)| - 1] == t[|t| - 1]
    decreases |t|
  {
    assert t == [t[0]] + t[1..];
    if |t| == 1 {
      CollapseKeeps(t[0], t[1..], mode);
    } else {
      var m := if t[0] == ' ' && mode == InRun then InRun else NextMode(mode, t[0]);
      assert t[1..][|t[1..]| - 1] == t[|t| - 1];
      CollapseLast(t[1..], m);
      if !(t[0] == ' ' && mode == InRun) {
        CollapseKeeps(t[0], t[1..], mode);
      }
    }
  }

  /** Case changes never turn whitespace into something else, or back. */
  lemma SpaceUpToCase(a: char, b: char)
    requires LowerChar(a) == LowerChar(b)
    ensures IsSpace(a) <==> IsSpace(b)
  {
  }

  /** The scan keeps the first character and a last one that is not whitespace. */
  lemma CollapseEnds(t: string)
    requires t != "" ==> !IsSpace(t[0]) && !IsSpace(t[|t| - 1])
    ensures Collapse(t, Plain) == "" <==> t == ""
    ensures Collapse(t, Plain) != "" ==>
      !IsSpace(Collapse(t, Plain)[0]) && !IsSpace(Collapse(t, Plain)[|Collapse(t, Plain)| - 1])
  {
    if t != "" {
      CollapseKeeps(t[0], t[1..], Plain);
      assert t == [t[0]] + t[1..];
      CollapseLast(t, Plain);
    }
  }

  /** Text equal up to case to text without whitespace at its ends has none either. */
  lemma StrippedUpToCase(r: string, c: string)
    requires Lower(r) == Lower(c)
    requires c != "" ==> !IsSpace(c[0]) && !IsSpace(c[|c| - 1])
    ensures |r| == |c|
    ensures Strip(r) == r
  {
    assert |r| == |Lower(r)| == |Lower(c)| == |c|;
    if r != "" {
      assert LowerChar(r[0]) == Lower(r)[0] == Lower(c)[0] == LowerChar(c[0]);
      SpaceUpToCase(r[0], c[0]);
      assert LowerChar(r[|r| - 1]) == Lower(r)[|r| - 1] == Lower(c)[|c| - 1] == LowerChar(c[|c| - 1]);
      SpaceUpToCase(r[|r| - 1], c[|c| - 1]);
    }
    StripNoop(r);
  }

  /**
   * The cleaned transcript has no whitespace at either end, it is empty
   * exactly when nothing is left once the spans are removed and the text is
   * stripped.
   */
  lemma CleanIsStripped(transcript: string)
    ensures Strip(CleanTranscript(transcript)) == CleanTranscript(transcript)
    ensures CleanTranscript(transcript) == "" <==> Unspanned(transcript) == ""
  {
    var x2 := RemoveSpans(RemoveSpans(transcript, '[', ']'), '(', ')');
    StripEnds(x2);
    CollapseEnds(Unspanned(transcript));
    CleanKeepsText(transcript);
    StrippedUpToCase(CleanTranscript(transcript), Collapse(Unspanned(transcript), Plain));
  }

  /** Text made only of whitespace cleans to "". */
  lemma CleanOfBlank(transcript: string)
    requires forall i :: 0 <= i < |transcript| ==> IsSpace(transcript[i])
    ensures CleanTranscript(transcript) == ""
  {
    AllSpaceIsUnspanned(transcript);
    CleanIsStripped(transcript);
  }

  /** Text made only of whitespace has no span, and strips to nothing. */
  lemma AllSpaceIsUnspanned(s: string)
    requires forall i :: 0 <= i < |s| ==> IsSpace(s[i])
    ensures Unspanned(s) == ""
  {
    RemoveSpansOfNoSpan(s, '[', ']');
    RemoveSpansOfNoSpan(s, '(', ')');
    StripShape(s);
    StripEnds(s);
  }

  // ---------------------------------------------------------------------------
  // Cleaning twice is cleaning once
  // ---------------------------------------------------------------------------

  /** The shape of a list of sentences as `SplitSentences` produces it. */
  predicate WellSplit(qs: seq<string>) {
    |qs| >= 1
    && (forall k :: 0 <= k < |qs| ==> NoBreakIn(qs[k]))
    && (forall k :: 0 <= k < |qs| - 1 ==> qs[k] != "" && IsSentenceEnd(qs[k][|qs[k]| - 1]))
    && (forall k :: 0 < k < |qs| ==> qs[k] == "" || qs[k][0] != ' ')
  }

  lemma CaseKeepsClass(a: char)
    ensures IsSentenceEnd(UpperChar(a)) <==> IsSentenceEnd(a)
    ensures IsSentenceEnd(LowerChar(a)) <==> IsSentenceEnd(a)
    ensures UpperChar(a) == ' ' <==> a == ' '
    ensures LowerChar(a) == ' ' <==> a == ' '
  {
  }

  /** Capitalising keeps a piece free of split points. */
  lemma CapitalizeKeepsNoBreak(p: string)
    requires NoBreakIn(p)
    ensures NoBreakIn(Capitalize(p))
  {
    var q := Capitalize(p);
    forall j | 0 <= j < |q| ensures !BreaksAt(q, j) {
      if j > 0 {
        CaseKeepsClass(p[j - 1]);
        CaseKeepsClass(p[j]);
        assert !BreaksAt(p, j);
      }
    }
  }

  /** Capitalised sentences keep the shape of the split. */
  lemma CapitalizeKeepsWellSplit(ps: seq<string>)
    requires WellSplit(ps)
    ensures WellSplit(CapitalizeAll(ps))
  {
    var qs := CapitalizeAll(ps);
    forall k | 0 <= k < |qs| ensures NoBreakIn(qs[k]) {
      CapitalizeKeepsNoBreak(ps[k]);
    }
    forall k | 0 <= k < |qs| - 1 ensures qs[k] != "" && IsSentenceEnd(qs[k][|qs[k]| - 1]) {
      CaseKeepsClass(ps[k][|ps[k]| - 1]);
    }
    forall k | 0 < k < |qs| ensures qs[k] == "" || qs[k][0] != ' ' {
      if ps[k] != "" {
        CaseKeepsClass(ps[k][0]);
      }
    }
  }

  /** The first character of a join is that of its first non-empty piece. */
  lemma JoinStart(qs: seq<string>, sep: string)
    requires |qs| >= 1 && qs[0] != ""
    ensures |Join(qs, sep)| > 0 && Join(qs, sep)[0] == qs[0][0]
  {
    if |qs| > 1 {
      JoinCons(qs[0], qs[1..], sep);
      assert qs == [qs[0]] + qs[1..];
    }
  }

  /** A finished sentence followed by one space and text that does not start with a space: the first cut is that space. */
  lemma CutAfterSentence(q: string, rest: string, j: string)
    requires j == q + " " + rest
    requires q != "" && IsSentenceEnd(q[|q| - 1]) && NoBreakIn(q)
    requires rest == "" || rest[0] != ' '
    ensures FirstBreak(j, 0) == |q| < |j| && RunEnd(j, |q|) == |q| + 1
    ensures j[..|q|] == q && j[|q| + 1..] == rest
  {
    assert j[..|q|] == q;
    assert j[|q| + 1..] == rest;
    assert BreaksAt(j, |q|);
    var b := FirstBreak(j, 0);
    if b < |q| {
      assert j[b - 1] == q[b - 1] && j[b] == q[b];
      assert BreaksAt(q, b);
    }
    if rest != "" {
      assert j[|q| + 1] == rest[0];
    }
  }

  /** Splitting well-shaped sentences joined by single spaces gives them back. */
  lemma {:induction false} SplitJoin(qs: seq<string>)
    requires WellSplit(qs)
    ensures SplitSentences(Join(qs, " ")) == qs
    decreases |qs|
  {
    var q := qs[0];
    if |qs| == 1 {
      assert Join(qs, " ") == q;
      assert FirstBreak(q, 0) == |q|;
    } else {
      var rest := qs[1..];
      var j' := Join(rest, " ");
      assert WellSplit(rest) by {
        forall k | 0 < k < |rest| ensures rest[k] == "" || rest[k][0] != ' ' {
          assert rest[k] == qs[k + 1];
        }
      }
      SplitJoin(rest);
      assert Join(qs, " ") == q + " " + j' by {
        JoinCons(q, rest, " ");
        assert qs == [q] + rest;
      }
      assert j' == "" || j'[0] != ' ' by {
        if rest[0] != "" {
          JoinStart(rest, " ");
        } else {
          assert |rest| == 1;
        }
      }
      assert q != "" && IsSentenceEnd(q[|q| - 1]) && NoBreakIn(q);
      SplitAfterSentence(q, j', rest);
      assert qs == [q] + rest;
    }
  }

  /** A finished sentence, one space, then text that splits into `tail`: the sentence comes first, then `tail`. */
  lemma SplitAfterSentence(q: string, rest: string, tail: seq<string>)
    requires q != "" && IsSentenceEnd(q[|q| - 1]) && NoBreakIn(q)
    requires rest == "" || rest[0] != ' '
    requires SplitSentences(rest) == tail
    ensures SplitSentences(q + " " + rest) == [q] + tail
  {
    var j := q + " " + rest;
    CutAfterSentence(q, rest, j);
    SplitSentencesStep(j);
  }

  lemma CapitalizeAllIdempotent(ps: seq<string>)
    ensures CapitalizeAll(CapitalizeAll(ps)) == CapitalizeAll(ps)
  {
    forall k | 0 <= k < |ps| ensures Capitalize(Capitalize(ps[k])) == Capitalize(ps[k]) {
      CapitalizeIdempotent(ps[k]);
    }
  }

  /** The sentences of the cleaned transcript are the capitalised sentences of the unspanned text. */
  lemma CleanSentences(transcript: string)
    ensures SplitSentences(CleanTranscript(transcript)) == CapitalizeAll(SplitSentences(Unspanned(transcript)))
  {
    SplitJoinCapitalized(SplitSentences(Unspanned(transcript)));
  }

  /** Capitalised well-shaped sentences, joined and split again, come back unchanged. */
  lemma SplitJoinCapitalized(ps: seq<string>)
    requires WellSplit(ps)
    ensures SplitSentences(Join(CapitalizeAll(ps), " ")) == CapitalizeAll(ps)
  {
    CapitalizeKeepsWellSplit(ps);
    SplitJoin(CapitalizeAll(ps));
  }

  /** `clean_transcript(clean_transcript(x)) == clean_transcript(x)`. */
  lemma CleanIdempotent(transcript: string)
    ensures CleanTranscript(CleanTranscript(transcript)) == CleanTranscript(transcript)
  {
    var r := CleanTranscript(transcript);
    CleanLeavesNoSpans(transcript);
    RemoveSpansOfNoSpan(r, '[', ']');
    RemoveSpansOfNoSpan(r, '(', ')');
    CleanIsStripped(transcript);
    assert Unspanned(r) == r;
    CleanSentences(transcript);
    CapitalizeAllIdempotent(SplitSentences(Unspanned(transcript)));
  }
}
