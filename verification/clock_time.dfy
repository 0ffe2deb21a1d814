/**
  Times of day as the app stores them: `"%H:%M:%S"` strings written by
  `strftime` and read back by `datetime.strptime`. Inside the model a time is
  a whole number of seconds since midnight, and a duration is a difference of
  two such numbers, which is negative when the later-named time is earlier.
 */
module ClockTime {
  import opened Wrappers

  const SecondsPerDay: int := 86400

  /** A time of day, in seconds since midnight. */
  type Seconds = t: int | 0 <= t < SecondsPerDay

  predicate IsDigit(c: char)
  {
    '0' <= c <= '9'
  }

  function DigitValue(c: char): nat
    requires IsDigit(c)
  {
    (c - '0') as nat
  }

  function DigitChar(n: nat): (c: char)
    requires n < 10
    ensures IsDigit(c) && DigitValue(c) == n
  {
    ('0' as int + n) as char
  }

  /** Hours, minutes and seconds of a time of day. */
  function HourOf(t: Seconds): nat { t / 3600 }
  function MinuteOf(t: Seconds): nat { (t / 60) % 60 }
  function SecondOf(t: Seconds): nat { t % 60 }

  /** A field of exactly two digits, zero-padded, as `%H`, `%M` and `%S` print it. */
  function TwoDigits(n: nat): (s: string)
    requires n < 100
    ensures |s| == 2 && IsDigit(s[0]) && IsDigit(s[1])
    ensures DigitValue(s[0]) * 10 + DigitValue(s[1]) == n
  {
    [DigitChar(n / 10), DigitChar(n % 10)]
  }

  /** `strftime("%H:%M:%S")` of a time of day (app.py line 68). */
  function FormatHms(t: Seconds): (s: string)
    ensures |s| == 8 && s[2] == ':' && s[5] == ':'
  {
    TwoDigits(HourOf(t)) + ":" + TwoDigits(MinuteOf(t)) + ":" + TwoDigits(SecondOf(t))
  }

  /**
    Reads one field of one or two digits that is closed by a ':' and returns
    its value with the text after the ':'. The pattern strptime uses for a
    field accepts one or two digits, and the ':' that follows is literal.
   */
  function TakeField(s: string): Option<(nat, string)>
  {
    if |s| >= 2 && IsDigit(s[0]) && s[1] == ':' then
      Some((DigitValue(s[0]), s[2..]))
    else if |s| >= 3 && IsDigit(s[0]) && IsDigit(s[1]) && s[2] == ':' then
      Some((DigitValue(s[0]) * 10 + DigitValue(s[1]), s[3..]))
    else
      None
  }

  /** Reads a last field that must make up the whole rest of the text. */
  function LastField(s: string): Option<nat>
  {
    if |s| == 1 && IsDigit(s[0]) then Some(DigitValue(s[0]))
    else if |s| == 2 && IsDigit(s[0]) && IsDigit(s[1]) then Some(DigitValue(s[0]) * 10 + DigitValue(s[1]))
    else None
  }

  /**
    `datetime.strptime(s, "%H:%M:%S")` (app.py lines 129-130 and 137-138) as
    the number of seconds since midnight of the result, or None where Python
    raises ValueError: a field that is not one or two digits, a missing ':',
    text left over, an hour above 23, a minute above 59, or a second above 59
    (the pattern admits 60 and 61, and building the datetime rejects them).
   */
  function ParseHms(s: string): (r: Option<Seconds>)
    ensures r.Some? ==> 5 <= |s| <= 8
  {
    match TakeField(s)
    case None => None
    case Some((h, rest)) =>
      match TakeField(rest)
      case None => None
      case Some((m, rest')) =>
        match LastField(rest')
        case None => None
        case Some(sec) =>
          if h <= 23 && m <= 59 && sec <= 59 then Some(h * 3600 + m * 60 + sec) else None
  }

  /** Splitting seconds into hours, minutes and seconds, and putting them back together. */
  lemma HmsSplit(h: nat, m: nat, sec: nat)
    requires h <= 23 && m <= 59 && sec <= 59
    ensures var t := h * 3600 + m * 60 + sec;
      0 <= t < SecondsPerDay && t / 3600 == h && (t / 60) % 60 == m && t % 60 == sec
  {
    var t := h * 3600 + m * 60 + sec;
    assert t == (h * 60 + m) * 60 + sec;
    assert t / 60 == h * 60 + m;
    assert t == h * 3600 + (m * 60 + sec);
  }

  lemma HmsJoin(t: Seconds)
    ensures HourOf(t) <= 23 && MinuteOf(t) <= 59 && SecondOf(t) <= 59
    ensures HourOf(t) * 3600 + MinuteOf(t) * 60 + SecondOf(t) == t
  {
    assert t == (t / 60) * 60 + t % 60;
    assert t / 60 == (t / 60 / 60) * 60 + (t / 60) % 60;
    assert t / 60 / 60 == t / 3600;
  }

  /** Every time the app writes is read back as the same time. */
  lemma {:induction false} ParseFormat(t: Seconds)
    ensures ParseHms(FormatHms(t)) == Some(t)
  {
    HmsJoin(t);
    var s := FormatHms(t);
    var hh, mm, ss := TwoDigits(HourOf(t)), TwoDigits(MinuteOf(t)), TwoDigits(SecondOf(t));
    assert s == hh + ":" + mm + ":" + ss;
    assert s[3..] == mm + ":" + ss;
    assert s[3..][3..] == ss;
    assert TakeField(s) == Some((HourOf(t), s[3..]));
    assert TakeField(s[3..]) == Some((MinuteOf(t), ss));
    assert LastField(ss) == Some(SecondOf(t));
  }

  /** A zero-padded text that parses is exactly the text the app would write for that time. */
  lemma {:induction false} FormatParse(s: string)
    requires |s| == 8 && ParseHms(s).Some?
    ensures FormatHms(ParseHms(s).value) == s
  {
    var t := ParseHms(s).value;
    assert IsDigit(s[0]) && IsDigit(s[1]) && s[2] == ':';
    var h := DigitValue(s[0]) * 10 + DigitValue(s[1]);
    var rest := s[3..];
    assert TakeField(s) == Some((h, rest));
    assert IsDigit(rest[0]) && IsDigit(rest[1]) && rest[2] == ':';
    var m := DigitValue(rest[0]) * 10 + DigitValue(rest[1]);
    var last := rest[3..];
    assert TakeField(rest) == Some((m, last));
    var sec := DigitValue(last[0]) * 10 + DigitValue(last[1]);
    assert LastField(last) == Some(sec);
    assert t == h * 3600 + m * 60 + sec;
    HmsSplit(h, m, sec);
    var out := FormatHms(t);
    TwoDigitsUnique(s[..2], h);
    TwoDigitsUnique(rest[..2], m);
    TwoDigitsUnique(last, sec);
    assert out == s[..2] + ":" + rest[..2] + ":" + last;
    assert s == s[..2] + ":" + rest[..2] + ":" + last;
  }

  /** Two digits determine their text. */
  lemma TwoDigitsUnique(d: string, n: nat)
    requires |d| == 2 && IsDigit(d[0]) && IsDigit(d[1]) && DigitValue(d[0]) * 10 + DigitValue(d[1]) == n
    ensures n < 100 && TwoDigits(n) == d
  {
    var e := TwoDigits(n);
    assert DigitValue(e[0]) == DigitValue(d[0]);
    assert DigitValue(e[1]) == DigitValue(d[1]);
  }

  /** A duration in seconds as the fractional hours the summary page shows (exact, without float rounding). */
  function Hours(d: int): (h: real)
    ensures h * 3600.0 == d as real
  {
    d as real / 3600.0
  }
}
