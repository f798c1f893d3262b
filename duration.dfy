/** `format_duration`: a number of seconds rendered as `MM:SS` or `HH:MM:SS`. */
module Duration {
  import opened Strings
  import opened Values

  /** `f"{n:02d}"`: at least two digits, zero-padded. */
  function Pad2(n: nat): (r: string)
    ensures AllDigits(r) && |r| >= 2
    ensures n < 100 ==> |r| == 2
  {
    if n < 10 then "0" + NatToString(n) else NatToString(n)
  }

  /** `format_duration(seconds)` for an integer or `None` argument. */
  function FormatDuration(seconds: Option<int>): (r: Option<string>)
    ensures r.None? <==> seconds.None? || seconds.value < 0
    ensures r.Some? ==> (|r.value| == 5 <==> seconds.value < 3600)
  {
    match seconds
    case None => None
    case Some(n) =>
      if n < 0 then None
      else
        var hours, remainder := n / 3600, n % 3600;
        var minutes, secs := remainder / 60, remainder % 60;
        if hours != 0 then Some(Pad2(hours) + ":" + Pad2(minutes) + ":" + Pad2(secs))
        else Some(Pad2(minutes) + ":" + Pad2(secs))
  }

  /** The three fields a clock string is read back into. */
  datatype Clock = Clock(hours: nat, minutes: nat, seconds: nat)

  /**
   * Reads back `MM:SS` (hours zero) or `H..H:MM:SS` with at least two hour
   * digits; anything else is not a clock string.
   */
  function ParseClock(s: string): Option<Clock> {
    if |s| == 5 && s[2] == ':' && AllDigits(s[..2]) && AllDigits(s[3..]) then
      Some(Clock(0, DecimalValue(s[..2]), DecimalValue(s[3..])))
    else if |s| >= 8 && s[|s| - 6] == ':' && s[|s| - 3] == ':'
      && AllDigits(s[..|s| - 6]) && AllDigits(s[|s| - 5..|s| - 3]) && AllDigits(s[|s| - 2..]) then
      Some(Clock(DecimalValue(s[..|s| - 6]), DecimalValue(s[|s| - 5..|s| - 3]), DecimalValue(s[|s| - 2..])))
    else None
  }

  lemma DecimalValueOfPad2(n: nat)
    ensures DecimalValue(Pad2(n)) == n
  {
    DecimalValueOfNatToString(n);
    if n < 10 {
      var r := Pad2(n);
      assert r[..1] == "0";
      assert r[1..] == NatToString(n);
      assert r[..|r| - 1] == "0";
    }
  }

  /**
   * A non-negative duration renders as a clock string whose fields read back
   * as hours, minutes below 60 and seconds below 60 that add up to the input,
   * with the short `MM:SS` form exactly when there are no hours.
   */
  lemma FormatDurationReadsBack(n: int)
    requires n >= 0
    ensures FormatDuration(Some(n)).Some?
    ensures var c := ParseClock(FormatDuration(Some(n)).value);
      c.Some? && c.value.minutes < 60 && c.value.seconds < 60
      && c.value.hours * 3600 + c.value.minutes * 60 + c.value.seconds == n
      && (c.value.hours == 0 <==> n < 3600)
  {
    var hours, remainder := n / 3600, n % 3600;
    var minutes, secs := remainder / 60, remainder % 60;
    ClockFields(n);
    DecimalValueOfPad2(hours);
    DecimalValueOfPad2(minutes);
    DecimalValueOfPad2(secs);
    if hours != 0 {
      ReadLongClock(Pad2(hours), Pad2(minutes), Pad2(secs));
    } else {
      ReadShortClock(Pad2(minutes), Pad2(secs));
    }
  }

  /** Hours, minutes and seconds split off by division add back up to the total. */
  lemma ClockFields(n: nat)
    ensures (n % 3600) / 60 < 60 && (n % 3600) % 60 < 60
    ensures (n / 3600) * 3600 + ((n % 3600) / 60) * 60 + (n % 3600) % 60 == n
    ensures n / 3600 == 0 <==> n < 3600
  {
  }

  lemma ReadShortClock(m: string, s: string)
    requires |m| == 2 && |s| == 2 && AllDigits(m) && AllDigits(s)
    ensures ParseClock(m + ":" + s) == Some(Clock(0, DecimalValue(m), DecimalValue(s)))
  {
    var r := m + ":" + s;
    assert r[..2] == m && r[3..] == s;
  }

  lemma ReadLongClock(h: string, m: string, s: string)
    requires |h| >= 2 && |m| == 2 && |s| == 2 && AllDigits(h) && AllDigits(m) && AllDigits(s)
    ensures ParseClock(h + ":" + m + ":" + s) == Some(Clock(DecimalValue(h), DecimalValue(m), DecimalValue(s)))
  {
    var r := h + ":" + m + ":" + s;
    assert |r| == |h| + 6 && r[|h|] == ':' && r[|h| + 3] == ':';
    assert r[..|r| - 6] == h;
    assert r[|r| - 5..|r| - 3] == m;
    assert r[|r| - 2..] == s;
    ReadLongFields(r, h, m, s);
  }

  /** A string whose separators sit where the long form puts them reads back as its three digit fields. */
  lemma ReadLongFields(r: string, h: string, m: string, s: string)
    requires |r| >= 8 && r[|r| - 6] == ':' && r[|r| - 3] == ':'
    requires r[..|r| - 6] == h && r[|r| - 5..|r| - 3] == m && r[|r| - 2..] == s
    requires AllDigits(h) && AllDigits(m) && AllDigits(s)
    ensures ParseClock(r) == Some(Clock(DecimalValue(h), DecimalValue(m), DecimalValue(s)))
  {
  }
}
