/** The anti-bot check: does a fetched text look like a challenge page rather than a transcript? */
module ContentValidator {
  import opened Strings

  /** The fixed, lower-case phrases of `SUSPECT_PATTERNS`. */
  const SuspectPatterns: seq<string> := [
    "we're sorry",
    "unusual traffic",
    "automated queries",
    "client does not have permission",
    "captcha"
  ]

  /** `is_suspect_content(text)`: the lower-cased text contains one of the phrases. */
  predicate IsSuspectContent(text: string) {
    exists k :: 0 <= k < |SuspectPatterns| && Contains(Lower(text), SuspectPatterns[k])
  }

  /** Suspect exactly when one of the phrases occurs, in any letter case, at some index of the text. */
  lemma SuspectIffPhraseOccurs(text: string)
    ensures IsSuspectContent(text) <==>
      exists k, i :: 0 <= k < |SuspectPatterns| && OccursAt(Lower(text), SuspectPatterns[k], i)
  {
    forall k | 0 <= k < |SuspectPatterns| {
      ContainsIff(Lower(text), SuspectPatterns[k]);
    }
  }

  /** Upper-casing a text does not change the verdict. */
  lemma SuspectIgnoresCase(text: string)
    ensures IsSuspectContent(Upper(text)) == IsSuspectContent(text)
  {
    assert Lower(Upper(text)) == Lower(text);
  }

  /** A suspect text stays suspect inside any larger text. */
  lemma SuspectInContext(a: string, text: string, b: string)
    requires IsSuspectContent(text)
    ensures IsSuspectContent(a + text + b)
  {
    var k :| 0 <= k < |SuspectPatterns| && Contains(Lower(text), SuspectPatterns[k]);
    ContainsInContext(Lower(a), Lower(text), Lower(b), SuspectPatterns[k]);
    LowerAppend(a, text);
    LowerAppend(a + text, b);
  }

  /** A text that passes the check still passes once stripped. */
  lemma StripKeepsClean(text: string)
    requires !IsSuspectContent(text)
    ensures !IsSuspectContent(Strip(text))
  {
    StripShape(text);
    var a := StripStart(text);
    var r := Strip(text);
    assert text == text[..a] + r + text[a + |r|..];
    if IsSuspectContent(r) {
      SuspectInContext(text[..a], r, text[a + |r|..]);
    }
  }
}
