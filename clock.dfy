/** Times of day and durations as the event log uses Go's `time` package.

    An instant is a whole number of milliseconds since 0000-01-01 00:00:00 UTC.
    `time.Parse` with a layout that has no date yields an instant on that first
    day, so every parsed clock reading lies in [0, DayMs). The zero `time.Time`
    (what a failed parse returns and what an unset field holds) is 0001-01-01
    00:00:00 UTC, 366 days later, since year 0 is a leap year. Durations are
    signed milliseconds. */
module Clock {
  import opened Wrappers
  import opened Text

  const SecondMs: nat := 1000
  const MinuteMs: nat := 60_000
  const HourMs: nat := 3_600_000
  const DayMs: nat := 86_400_000

  /** The zero `time.Time`. */
  const ZeroInstant: nat := 366 * DayMs

  predicate IsSeparator(c: char) { c == '.' || c == ',' }

  /** The value of two decimal digits. */
  function TwoDigits(tens: char, units: char): (v: nat)
    requires IsDigit(tens) && IsDigit(units)
    ensures v < 100
  {
    DigitValue(tens) * 10 + DigitValue(units)
  }

  /** The `15:04:05` part of a layout: an hour of one or two digits below 24, then
      `:`, two digits of minutes below 60, `:`, two digits of seconds below 60.
      Gives the milliseconds since midnight and the unread rest. */
  function ParseHms(s: string): (r: Option<(nat, string)>)
    ensures r.Some? ==> r.value.0 < DayMs
    ensures r.Some? ==> |r.value.1| <= |s| - 7
  {
    if s == [] || !IsDigit(s[0]) then None
    else
      var twoDigitHour := |s| >= 2 && IsDigit(s[1]);
      var hour := if twoDigitHour then TwoDigits(s[0], s[1]) else DigitValue(s[0]);
      var r := if twoDigitHour then s[2..] else s[1..];
      if hour >= 24 then None
      else if |r| < 6 || r[0] != ':' || !IsDigit(r[1]) || !IsDigit(r[2])
              || r[3] != ':' || !IsDigit(r[4]) || !IsDigit(r[5]) then None
      else
        var minute := TwoDigits(r[1], r[2]);
        var second := TwoDigits(r[4], r[5]);
        if minute >= 60 || second >= 60 then None
        else Some((hour * HourMs + minute * MinuteMs + second * SecondMs, r[6..]))
  }

  /** The three characters after the separator of a `.000` fraction, read the way
      Go reads them: three digits, or a sign and two digits, where a negative
      value is out of range. */
  function FractionMs(x: string): (r: Option<nat>)
    requires |x| == 3
    ensures r.Some? ==> r.value < 1000
  {
    if x[0] == '+' || x[0] == '-' then
      if IsDigit(x[1]) && IsDigit(x[2]) then
        var v := TwoDigits(x[1], x[2]);
        if x[0] == '-' && v != 0 then None else Some(v)
      else None
    else if IsDigit(x[0]) && IsDigit(x[1]) && IsDigit(x[2]) then
      Some(DigitValue(x[0]) * 100 + TwoDigits(x[1], x[2]))
    else None
  }

  /** `time.Parse("15:04:05.000", s)`: a clock reading with exactly three
      fraction characters after a `.` or `,` and nothing after them. */
  function ParseClock(s: string): (r: Option<nat>)
    ensures r.Some? ==> r.value < DayMs
  {
    match ParseHms(s)
    case None => None
    case Some((ms, rest)) =>
      if |rest| != 4 || !IsSeparator(rest[0]) then None
      else match FractionMs(rest[1..])
        case None => None
        case Some(f) => Some(ms + f)
  }

  /** `time.Parse("15:04:05", s)`: a clock reading; Go also accepts a fraction of
      a second written after it (a separator and at least one digit), which is
      dropped here. */
  function ParseTimeOfDay(s: string): (r: Option<nat>)
    ensures r.Some? ==> r.value < DayMs
  {
    match ParseHms(s)
    case None => None
    case Some((ms, rest)) =>
      if rest == [] || (|rest| >= 2 && IsSeparator(rest[0]) && AllDigits(rest[1..])) then Some(ms)
      else None
  }

  /** `HH:MM:SS` written with two digits each. */
  function HmsText(h: nat, m: nat, sec: nat): string
    requires h < 100 && m < 60 && sec < 60
  {
    [DigitChar(h / 10), DigitChar(h % 10), ':',
     DigitChar(m / 10), DigitChar(m % 10), ':',
     DigitChar(sec / 10), DigitChar(sec % 10)]
  }

  /** Two digits read back as the number below 100 they were written from. */
  lemma TwoDigitsOf(n: nat)
    requires n < 100
    ensures TwoDigits(DigitChar(n / 10), DigitChar(n % 10)) == n
  {
  }

  /** Reading `HH:MM:SS` written with two digits each, whatever follows. */
  lemma ParseHmsOfDigits(h: nat, m: nat, sec: nat, rest: string)
    requires h < 24 && m < 60 && sec < 60
    ensures ParseHms(HmsText(h, m, sec) + rest)
            == Some((h * HourMs + m * MinuteMs + sec * SecondMs, rest))
  {
    var s := HmsText(h, m, sec) + rest;
    var r := s[2..];
    TwoDigitsOf(h);
    TwoDigitsOf(m);
    TwoDigitsOf(sec);
    assert r[6..] == rest;
  }

  /** Every `HH:MM:SS` reading of a time of day is accepted as the start time. */
  lemma ParseTimeOfDayOfDigits(h: nat, m: nat, sec: nat)
    requires h < 24 && m < 60 && sec < 60
    ensures ParseTimeOfDay(HmsText(h, m, sec)) == Some(h * HourMs + m * MinuteMs + sec * SecondMs)
  {
    ParseHmsOfDigits(h, m, sec, []);
    assert HmsText(h, m, sec) + [] == HmsText(h, m, sec);
  }

  /** `t, _ := time.Parse("15:04:05.000", s)`: a failed parse leaves the zero time. */
  function ClockOrZero(s: string): (t: nat)
    ensures t < DayMs || t == ZeroInstant
    ensures ParseClock(s).Some? ==> t == ParseClock(s).value
    ensures ParseClock(s).None? ==> t == ZeroInstant
  {
    match ParseClock(s)
    case Some(t) => t
    case None => ZeroInstant
  }

  /** `time.ParseDuration(part + unit)` with the error dropped, for a unit of
      `unitMs` milliseconds: an optionally signed run of decimal digits counts
      that many units; anything else, or a magnitude that does not fit a 64-bit
      count of nanoseconds, counts zero. */
  function DurationPart(part: string, unitMs: nat): (d: int)
    requires unitMs > 0
    ensures (part == [] || !IsDigit(part[|part| - 1])) ==> d == 0
  {
    var signed := part != [] && (part[0] == '+' || part[0] == '-');
    var digits := if signed then part[1..] else part;
    if digits == [] || !AllDigits(digits) then 0
    else
      var magnitude := DigitsValue(digits) * unitMs;
      if magnitude * 1_000_000 >= 0x8000_0000_0000_0000 then 0
      else if signed && part[0] == '-' then -magnitude
      else magnitude
  }
}
