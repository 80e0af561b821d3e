/** `timedelta2str`: a duration in whole seconds printed as hours:minutes:seconds. */
module Clock {
  import opened Base
  import opened Digits

  /** Hours, minutes and seconds of a duration, by floored divmod as Python's `divmod` does. */
  function HoursMinutesSeconds(seconds: int): (c: (int, int, int))
    ensures 0 <= c.1 < 60 && 0 <= c.2 < 60
    ensures c.0 * 3600 + c.1 * 60 + c.2 == seconds
  {
    // Dafny's division and remainder by a positive divisor floor, as Python's do.
    var minutes, secs := seconds / 60, seconds % 60;
    var hours, mins := minutes / 60, minutes % 60;
    (hours, mins, secs)
  }

  /** The split into hours, minutes and seconds in 0..59 is the only one. */
  lemma HoursMinutesSecondsUnique(seconds: int, h: int, m: int, s: int)
    requires 0 <= m < 60 && 0 <= s < 60 && h * 3600 + m * 60 + s == seconds
    ensures HoursMinutesSeconds(seconds) == (h, m, s)
  {
    var c := HoursMinutesSeconds(seconds);
    assert (h * 60 + m) * 60 + s == seconds;
    assert seconds / 60 == h * 60 + m && seconds % 60 == s;
    assert (h * 60 + m) / 60 == h && (h * 60 + m) % 60 == m;
  }

  /** `str(n)` of an integer. */
  function SignedDecimal(n: int): (s: string)
    ensures |s| >= 1
  {
    if n < 0 then "-" + Decimal(-n) else Decimal(n)
  }

  /** `timedelta2str`: "{}:{:0=2}:{:0=2}" of the hours, minutes and seconds. */
  function TimedeltaToStr(seconds: int): (s: string)
  {
    var (h, m, sec) := HoursMinutesSeconds(seconds);
    SignedDecimal(h) + ":" + Padded(m, 2) + ":" + Padded(sec, 2)
  }

  /** Reading an integer printed by `str`. */
  function ParseSigned(s: string): (r: Option<int>)
  {
    if |s| >= 2 && s[0] == '-' && AllDigits(s[1..]) then Some(-(Value(s[1..]) as int))
    else if |s| >= 1 && AllDigits(s) then Some(Value(s))
    else None
  }

  /** Reading "h:mm:ss" back into seconds; the inverse of `TimedeltaToStr`. */
  function ParseClock(text: string): (r: Option<int>)
  {
    var n := |text|;
    if n < 7 || text[n - 6] != ':' || text[n - 3] != ':'
       || !AllDigits(text[n - 5..n - 3]) || !AllDigits(text[n - 2..]) then None
    else
      var m, s := Value(text[n - 5..n - 3]), Value(text[n - 2..]);
      if m >= 60 || s >= 60 then None
      else
        match ParseSigned(text[..n - 6])
        case None => None
        case Some(h) => Some(h * 3600 + m * 60 + s)
  }

  lemma SignedDecimalParses(n: int)
    ensures ParseSigned(SignedDecimal(n)) == Some(n)
  {
    var s := SignedDecimal(n);
    if n < 0 {
      var d := Decimal(-n);
      assert s[0] == '-' && s[1..] == d;
      DecimalValue(-n);
      assert ParseSigned(s) == Some(-(Value(d) as int));
    } else {
      assert IsDigit(s[0]);
      DecimalValue(n);
    }
  }

  /** The three fields of "h:mm:ss" sit at fixed distances from the end. */
  lemma ClockFields(head: string, mm: string, ss: string)
    requires |mm| == 2 && |ss| == 2
    ensures var text := head + ":" + mm + ":" + ss;
      var n := |text|;
      && n == |head| + 6
      && text[n - 6] == ':' && text[n - 3] == ':'
      && text[n - 5..n - 3] == mm && text[n - 2..] == ss && text[..n - 6] == head
  {
  }

  /** Printing a duration and reading it back gives the same number of seconds, negative ones included. */
  lemma TimedeltaToStrRoundTrip(seconds: int)
    ensures ParseClock(TimedeltaToStr(seconds)) == Some(seconds)
  {
    var c := HoursMinutesSeconds(seconds);
    var head, mm, ss := SignedDecimal(c.0), Padded(c.1, 2), Padded(c.2, 2);
    ClockFields(head, mm, ss);
    PaddedValue(c.1, 2);
    PaddedValue(c.2, 2);
    SignedDecimalParses(c.0);
    var text := head + ":" + mm + ":" + ss;
    assert TimedeltaToStr(seconds) == text;
    var n := |text|;
    assert Value(text[n - 5..n - 3]) == c.1 && Value(text[n - 2..]) == c.2;
    assert ParseSigned(text[..n - 6]) == Some(c.0);
  }
}
