/**
 * Wall-clock times of routes. A route stores its departure as an "HH:MM"
 * string; the scheduler parses it into a moment on a fixed day
 * (1900-01-01), so a moment is modelled as a whole number of minutes after
 * that day's midnight. Moments past midnight stay larger than earlier ones;
 * only formatting back to "HH:MM" wraps them around the day.
 */
module Clock {
  import opened Wrappers

  const MinutesPerDay := 1440

  predicate IsDigit(c: char) {
    '0' <= c <= '9'
  }

  function DigitValue(c: char): (d: nat)
    requires IsDigit(c)
    ensures d < 10
  {
    c as int - '0' as int
  }

  function DigitChar(d: nat): (c: char)
    requires d < 10
    ensures IsDigit(c) && DigitValue(c) == d
  {
    ('0' as int + d) as char
  }

  /** Parsing with format "%H:%M", restricted to two digits per field. */
  function ParseTime(s: string): (r: Option<int>)
    ensures r.Some? ==> 0 <= r.value < MinutesPerDay
  {
    if |s| == 5 && IsDigit(s[0]) && IsDigit(s[1]) && s[2] == ':' && IsDigit(s[3]) && IsDigit(s[4]) then
      var h := 10 * DigitValue(s[0]) + DigitValue(s[1]);
      var m := 10 * DigitValue(s[3]) + DigitValue(s[4]);
      if h < 24 && m < 60 then Some(60 * h + m) else None
    else
      None
  }

  /** Formatting with "%H:%M" of the moment t minutes after midnight of the fixed day. */
  function FormatTime(t: int): (s: string)
    ensures |s| == 5 && s[2] == ':'
  {
    var m := t % MinutesPerDay;
    var h := m / 60;
    var mm := m % 60;
    [DigitChar(h / 10), DigitChar(h % 10), ':', DigitChar(mm / 10), DigitChar(mm % 10)]
  }

  /** Formatting then parsing gives back the moment, wrapped into the day. */
  lemma ParseFormat(t: int)
    ensures ParseTime(FormatTime(t)) == Some(t % MinutesPerDay)
  {
    var m := t % MinutesPerDay;
    var h, mm := m / 60, m % 60;
    var s := FormatTime(t);
    assert DigitValue(s[0]) == h / 10 && DigitValue(s[1]) == h % 10;
    assert DigitValue(s[3]) == mm / 10 && DigitValue(s[4]) == mm % 10;
    assert 10 * (h / 10) + h % 10 == h;
    assert 10 * (mm / 10) + mm % 10 == mm;
    assert 60 * h + mm == m;
  }

  /** A well-formed time string is reproduced by formatting its parsed value. */
  lemma FormatParse(s: string)
    requires ParseTime(s).Some?
    ensures FormatTime(ParseTime(s).value) == s
  {
    var h := 10 * DigitValue(s[0]) + DigitValue(s[1]);
    var m := 10 * DigitValue(s[3]) + DigitValue(s[4]);
    var t := 60 * h + m;
    assert t % MinutesPerDay == t;
    assert t / 60 == h && t % 60 == m;
    assert h / 10 == DigitValue(s[0]) && h % 10 == DigitValue(s[1]);
    assert m / 10 == DigitValue(s[3]) && m % 10 == DigitValue(s[4]);
    var f := FormatTime(t);
    assert f[0] == s[0] && f[1] == s[1] && f[3] == s[3] && f[4] == s[4];
  }
}
