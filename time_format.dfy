/** `formatMessageTime` of client/src/lib/utils.js: a message time as a 12-hour clock
    reading "h:mm" without AM/PM, or the empty string when there is no valid date. */
module TimeFormat {
  import opened Text
  import opened Store

  /** `hours % 12`, with 0 shown as 12. */
  function Clock12(hour: Hour): (h: nat)
    ensures 1 <= h <= 12
    ensures h == hour || h == hour + 12 || h == hour - 12
  {
    if hour % 12 == 0 then 12 else hour % 12
  }

  /** `String(minutes).padStart(2, '0')`. */
  function TwoDigits(minute: Minute): (r: string)
    ensures |r| == 2 && AllDigits(r) && DigitsValue(r) == minute
  {
    var d := Decimal(minute);
    var r := PadStart(d, 2, '0');
    if minute < 10 then
      assert r == ['0'] + d;
      assert r[..1] == ['0'];
      r
    else
      r
  }

  function FormatMessageTime(date: Stamp): (r: string)
    ensures !date.At? <==> r == ""
    ensures date.At? ==> 4 <= |r| <= 5
  {
    match date
    case At(hour, minute) => Decimal(Clock12(hour)) + ":" + TwoDigits(minute)
    case _ => ""
  }

  /** Reads an "h:mm" or "hh:mm" rendering back into its hour and minute. */
  function ParseClock(r: string): (p: Option<(nat, nat)>)
  {
    var k := |r| - 3;
    if (k == 1 || k == 2) && r[k] == ':' && AllDigits(r[..k]) && AllDigits(r[k + 1..])
    then Some((DigitsValue(r[..k]), DigitsValue(r[k + 1..])))
    else None
  }

  /** A rendering reads back as the 12-hour clock hour and the minute. */
  lemma FormatRoundTrip(hour: Hour, minute: Minute)
    ensures ParseClock(FormatMessageTime(At(hour, minute))) == Some((Clock12(hour), minute))
  {
    var h := Decimal(Clock12(hour));
    var t := TwoDigits(minute);
    var r := h + ":" + t;
    assert r == FormatMessageTime(At(hour, minute));
    var k := |r| - 3;
    assert k == |h| && (k == 1 || k == 2);
    assert r[..k] == h && r[k + 1..] == t && r[k] == ':';
    assert ParseClock(r) == Some((DigitsValue(h), DigitsValue(t)));
  }

  /** The rendering can be read back: equal renderings mean equal clock readings. */
  lemma FormatReadsBack(h1: Hour, m1: Minute, h2: Hour, m2: Minute)
    requires FormatMessageTime(At(h1, m1)) == FormatMessageTime(At(h2, m2))
    ensures h1 % 12 == h2 % 12 && m1 == m2
  {
    FormatRoundTrip(h1, m1);
    FormatRoundTrip(h2, m2);
  }

  /** Hours twelve apart render alike. */
  lemma FormatIgnoresHalfDay(h1: Hour, h2: Hour, minute: Minute)
    requires h1 % 12 == h2 % 12
    ensures FormatMessageTime(At(h1, minute)) == FormatMessageTime(At(h2, minute))
  {
    assert Clock12(h1) == Clock12(h2);
  }

  /** Two times render alike exactly when they agree on the hour modulo 12 and on the
      minute: the rendering loses AM/PM and nothing else. */
  lemma FormatDistinguishes(h1: Hour, m1: Minute, h2: Hour, m2: Minute)
    ensures FormatMessageTime(At(h1, m1)) == FormatMessageTime(At(h2, m2)) <==> h1 % 12 == h2 % 12 && m1 == m2
  {
    if FormatMessageTime(At(h1, m1)) == FormatMessageTime(At(h2, m2)) {
      FormatReadsBack(h1, m1, h2, m2);
    }
    if h1 % 12 == h2 % 12 && m1 == m2 {
      FormatIgnoresHalfDay(h1, h2, m1);
    }
  }

  /** Midnight and noon both read back as hour 12. */
  lemma MidnightAndNoon(minute: Minute)
    ensures ParseClock(FormatMessageTime(At(0, minute))) == Some((12, minute as nat))
    ensures FormatMessageTime(At(12, minute)) == FormatMessageTime(At(0, minute))
  {
    FormatRoundTrip(0, minute);
    FormatIgnoresHalfDay(12, 0, minute);
  }
}
