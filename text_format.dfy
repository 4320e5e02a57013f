/**
 * Decimal and clock-time text. The page turns numbers into text in two
 * places: the date keys ("day_month_year", plain decimal without padding)
 * and the slot display time, produced by the browser's locale formatter with
 * a two-digit hour, a two-digit minute and a 12-hour clock. The locale
 * formatter is modelled by FormatTime ("hh:mm AM"/"hh:mm PM"). The general
 * lemmas about the slot generator rely only on it being injective on the
 * minutes of a day, which TimeRoundTrip establishes; the worked 10 June 2024
 * scenarios assume the exact "10:00 AM" text.
 */
module TextFormat {
  import opened Wrappers

  const MinutesPerDay := 1440

  predicate IsDigit(c: char) { '0' <= c <= '9' }

  predicate AllDigits(s: string) { forall k :: 0 <= k < |s| ==> IsDigit(s[k]) }

  function DigitChar(d: nat): (c: char)
    requires d < 10
    ensures IsDigit(c)
  {
    (48 + d) as char
  }

  function DigitValue(c: char): (d: nat)
    requires IsDigit(c)
    ensures d < 10 && DigitChar(d) == c
  {
    (c as int - 48) as nat
  }

  /** JavaScript's `n + ""` for a non-negative integer: shortest decimal. */
  function NatToString(n: nat): (s: string)
    ensures |s| > 0 && AllDigits(s)
    ensures n < 10 <==> |s| == 1
    ensures n >= 10 ==> s[0] != '0'
    decreases n
  {
    if n < 10 then [DigitChar(n)] else NatToString(n / 10) + [DigitChar(n % 10)]
  }

  /** The value of a string of decimal digits. */
  function DigitsValue(s: string): nat
    requires AllDigits(s)
  {
    if s == [] then 0 else DigitsValue(s[..|s| - 1]) * 10 + DigitValue(s[|s| - 1])
  }

  lemma {:induction false} NatToStringRoundTrip(n: nat)
    ensures DigitsValue(NatToString(n)) == n
    decreases n
  {
    var s := NatToString(n);
    if n >= 10 {
      NatToStringRoundTrip(n / 10);
      assert s[..|s| - 1] == NatToString(n / 10);
      assert DigitValue(s[|s| - 1]) == n % 10;
    }
  }

  /** Distinct numbers have distinct decimal texts. */
  lemma NatToStringInjective(a: nat, b: nat)
    ensures NatToString(a) == NatToString(b) <==> a == b
  {
    if NatToString(a) == NatToString(b) {
      NatToStringRoundTrip(a);
      NatToStringRoundTrip(b);
    }
  }

  /** Two-digit, zero-padded decimal of a number below 100. */
  function TwoDigits(n: nat): (s: string)
    requires n < 100
    ensures |s| == 2 && AllDigits(s)
  {
    [DigitChar(n / 10), DigitChar(n % 10)]
  }

  /** The hour shown on a 12-hour clock: 0 and 12 show as 12. */
  function Hour12(h: nat): (r: nat)
    ensures 1 <= r <= 12
    ensures r % 12 == h % 12
  {
    if h % 12 == 0 then 12 else h % 12
  }

  /** Display time of a minute of the day, e.g. 630 gives "10:30 AM". */
  function FormatTime(minute: nat): (s: string)
    ensures |s| == 8
  {
    var h := minute / 60;
    TwoDigits(Hour12(h)) + ":" + TwoDigits(minute % 60) + " " + (if h % 24 < 12 then "AM" else "PM")
  }

  /** Reads a display time back into a minute of the day; None if malformed. */
  function ParseTime(s: string): (r: Option<nat>)
    ensures r.Some? ==> r.value < MinutesPerDay
  {
    if |s| == 8 && IsDigit(s[0]) && IsDigit(s[1]) && s[2] == ':' && IsDigit(s[3]) && IsDigit(s[4])
       && s[5] == ' ' && (s[6..] == "AM" || s[6..] == "PM")
    then
      var h12 := DigitValue(s[0]) * 10 + DigitValue(s[1]);
      var mm := DigitValue(s[3]) * 10 + DigitValue(s[4]);
      if 1 <= h12 <= 12 && mm < 60 then
        var h := (if h12 == 12 then 0 else h12) + (if s[6..] == "PM" then 12 else 0);
        Some(h * 60 + mm)
      else None
    else None
  }

  /** Every minute of a day survives formatting and parsing. */
  lemma TimeRoundTrip(minute: nat)
    requires minute < MinutesPerDay
    ensures ParseTime(FormatTime(minute)) == Some(minute)
  {
    var s := FormatTime(minute);
    var h := minute / 60;
    var mm := minute % 60;
    assert h < 24;
    assert s[..2] == TwoDigits(Hour12(h));
    assert s[3..5] == TwoDigits(mm);
    assert s[6..] == if h < 12 then "AM" else "PM";
    assert DigitValue(s[0]) * 10 + DigitValue(s[1]) == Hour12(h);
    assert DigitValue(s[3]) * 10 + DigitValue(s[4]) == mm;
  }

  /** Two minutes of the same day never share a display time. */
  lemma FormatTimeInjective(a: nat, b: nat)
    requires a < MinutesPerDay && b < MinutesPerDay
    ensures FormatTime(a) == FormatTime(b) <==> a == b
  {
    TimeRoundTrip(a);
    TimeRoundTrip(b);
  }
}
