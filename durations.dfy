/**
 * The text `calculate_duration` renders for an elapsed time of whole minutes,
 * and a reader that recovers the minutes from that text.
 */
module Durations {
  import opened Options
  import opened Text

  /** The text `calculate_duration` gives for a non-negative whole number of minutes. */
  function FormatMinutes(minutes: nat): (r: string)
    ensures |r| >= 2 && r[|r| - 1] == 'm'
  {
    var hours := minutes / 60;
    if hours > 0 then NatToString(hours) + "h " + NatToString(minutes % 60) + "m"
    else NatToString(minutes) + "m"
  }

  /** Reads `"<m>m"` (digits, then `m`, then nothing) as `m`. */
  function ParseMinutesText(text: string): Option<nat> {
    var k := DigitSpan(text);
    if k > 0 && |text| == k + 1 && text[k] == 'm' then Some(DigitsValue(text[..k])) else None
  }

  /** Reads `"<h>h <m>m"` as `60 * h + m`. */
  function ParseHoursText(text: string): Option<nat> {
    var k := DigitSpan(text);
    if k > 0 && k + 2 <= |text| && text[k] == 'h' && text[k + 1] == ' ' then
      match ParseMinutesText(text[k + 2..])
      case Some(m) => Some(60 * DigitsValue(text[..k]) + m)
      case None => None
    else None
  }

  /**
   * Reads a rendered duration back as a number of minutes: `"<m>m"` gives `m`,
   * `"<h>h <m>m"` gives `60 * h + m`, anything else gives `None`.
   */
  function ParseDuration(text: string): Option<nat> {
    match ParseMinutesText(text)
    case Some(m) => Some(m)
    case None => ParseHoursText(text)
  }

  /** A digit run followed by `rest` (which starts with a non-digit) splits back into the two. */
  lemma ReadDigits(ds: string, rest: string)
    requires AllDigits(ds)
    requires rest == [] || !IsDigit(rest[0])
    ensures var text := ds + rest;
      DigitSpan(text) == |ds| && text[..|ds|] == ds && text[|ds|..] == rest
  {
    DigitSpanOf(ds, rest);
    var text := ds + rest;
    assert text[..|ds|] == ds;
    assert text[|ds|..] == rest;
  }

  /** `"<digits>m"` reads back as the value of the digits. */
  lemma ParseMinutesDigits(ds: string)
    requires |ds| > 0 && AllDigits(ds)
    ensures ParseMinutesText(ds + "m") == Some(DigitsValue(ds))
  {
    ReadDigits(ds, "m");
  }

  lemma Regroup(a: string, b: string, c: string, d: string)
    ensures a + b + c + d == a + (b + (c + d))
  {
  }

  /** The hours form is read once its digit run `k`, its separator and its minutes are known. */
  lemma ParseHoursStep(text: string, k: nat, h: nat, m: nat)
    requires k == DigitSpan(text) && 0 < k && k + 2 <= |text| && text[k] == 'h' && text[k + 1] == ' '
    requires DigitsValue(text[..k]) == h
    requires ParseMinutesText(text[k + 2..]) == Some(m)
    ensures ParseHoursText(text) == Some(60 * h + m)
  {
  }

  /** A text in the hours form is not in the minutes form, so it decodes as hours. */
  lemma ParseHoursAt(text: string, k: nat, h: nat, m: nat)
    requires k == DigitSpan(text) && 0 < k && k + 2 <= |text| && text[k] == 'h' && text[k + 1] == ' '
    requires DigitsValue(text[..k]) == h
    requires ParseMinutesText(text[k + 2..]) == Some(m)
    ensures ParseDuration(text) == Some(60 * h + m)
  {
    ParseHoursStep(text, k, h, m);
    FallBackToHours(text);
  }

  /** A text that is not in the minutes form is read in the hours form. */
  lemma FallBackToHours(text: string)
    requires ParseMinutesText(text) == None
    ensures ParseDuration(text) == ParseHoursText(text)
  {
  }

  /** Where the parts of `"<digits>h <digits>m"` sit. */
  lemma HoursTextShape(hs: string, ms: string)
    requires |hs| > 0 && AllDigits(hs) && AllDigits(ms)
    ensures var text := hs + "h " + ms + "m";
      && DigitSpan(text) == |hs| && |hs| + 2 <= |text|
      && text[|hs|] == 'h' && text[|hs| + 1] == ' '
      && text[..|hs|] == hs && text[|hs| + 2..] == ms + "m"
  {
    var rest := "h " + (ms + "m");
    Regroup(hs, "h ", ms, "m");
    ReadDigits(hs, rest);
  }

  /** `"<m>m"` reads back as `m` minutes. */
  lemma ParseMinutesForm(m: nat)
    ensures ParseMinutesText(NatToString(m) + "m") == Some(m)
  {
    ParseMinutesDigits(NatToString(m));
    NatToStringRoundTrip(m);
  }

  /** `"<h>h <m>m"` reads back as `60 * h + m` minutes. */
  lemma ParseHoursForm(h: nat, m: nat)
    ensures ParseDuration(NatToString(h) + "h " + NatToString(m) + "m") == Some(60 * h + m)
  {
    var hs, ms := NatToString(h), NatToString(m);
    HoursTextShape(hs, ms);
    ParseMinutesDigits(ms);
    NatToStringRoundTrip(h);
    NatToStringRoundTrip(m);
    ParseHoursAt(hs + "h " + ms + "m", |hs|, h, m);
  }

  /** Decoding a rendered duration gives back the minutes it was rendered from. */
  lemma FormatMinutesRoundTrip(minutes: nat)
    ensures ParseDuration(FormatMinutes(minutes)) == Some(minutes)
  {
    var hours := minutes / 60;
    if hours > 0 {
      ParseHoursForm(hours, minutes % 60);
    } else {
      ParseMinutesForm(minutes);
      assert ParseDuration(FormatMinutes(minutes)) == ParseMinutesText(NatToString(minutes) + "m");
    }
  }

  /** Distinct minute counts are rendered as distinct texts. */
  lemma FormatMinutesInjective(a: nat, b: nat)
    ensures FormatMinutes(a) == FormatMinutes(b) <==> a == b
  {
    FormatMinutesRoundTrip(a);
    FormatMinutesRoundTrip(b);
  }

  /** The markers `"Running"` and `"Invalid"` are not durations. */
  lemma MarkersAreNotDurations()
    ensures ParseDuration("Running") == None && ParseDuration("Invalid") == None
  {
  }

}
