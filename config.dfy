/** config.go: validation of the decoded race configuration and assembly of the
    start window from its `H:M:S` text. */
module Config {
  import opened Wrappers
  import opened Text
  import opened Clock

  /** config.go's `Config`; `parsedStart` is an instant and `parsedStartDelta`
      a duration in milliseconds. */
  datatype Config = Config(
    laps: int,
    lapLen: int,
    penaltyLen: int,
    firingLines: int,
    start: string,
    startDelta: string,
    parsedStart: nat,
    parsedStartDelta: int)

  /** Why `New` refuses a configuration; `BadStart` stands for the error that
      `time.Parse` returns. */
  datatype ConfigError = NotPositive(field: string) | BadStart(text: string) | BadStartDelta

  /** The start window: the hours, minutes and seconds of the three parts added
      up, where a part that does not parse counts zero. */
  function StartDelta(parts: seq<string>): int
    requires |parts| == 3
  {
    DurationPart(parts[0], HourMs) + DurationPart(parts[1], MinuteMs) + DurationPart(parts[2], SecondMs)
  }

  /** `New` once the file is read and decoded: the four counts must be positive
      (checked in the order laps, lapLen, firingLines, penaltyLen), `start` must
      read as `15:04:05` and `startDelta` must have exactly three `:`-separated
      parts; the first failing check gives the error. On success the two parsed
      fields are filled in and nothing else changes. */
  function New(raw: Config): (r: Result<Config, ConfigError>)
    ensures r.Success? <==>
      raw.laps > 0 && raw.lapLen > 0 && raw.firingLines > 0 && raw.penaltyLen > 0 &&
      ParseTimeOfDay(raw.start).Some? && |Split(raw.startDelta, ':')| == 3
    ensures r.Success? ==>
      r.value == raw.(parsedStart := ParseTimeOfDay(raw.start).value,
                      parsedStartDelta := StartDelta(Split(raw.startDelta, ':')))
    ensures r.Failure? && r.error.NotPositive? ==>
      r.error.field in {"laps", "lapLen", "firingLines", "penaltyLen"}
  {
    if raw.laps <= 0 then Failure(NotPositive("laps"))
    else if raw.lapLen <= 0 then Failure(NotPositive("lapLen"))
    else if raw.firingLines <= 0 then Failure(NotPositive("firingLines"))
    else if raw.penaltyLen <= 0 then Failure(NotPositive("penaltyLen"))
    else match ParseTimeOfDay(raw.start)
      case None => Failure(BadStart(raw.start))
      case Some(startTime) =>
        var deltaParts := Split(raw.startDelta, ':');
        if |deltaParts| != 3 then Failure(BadStartDelta)
        else Success(raw.(parsedStart := startTime, parsedStartDelta := StartDelta(deltaParts)))
  }

  /** The error reported is that of the first check, in source order, that fails. */
  lemma FirstFailureReported(raw: Config)
    ensures New(raw) == Failure(NotPositive("laps")) <==> raw.laps <= 0
    ensures New(raw) == Failure(NotPositive("lapLen")) <==> raw.laps > 0 && raw.lapLen <= 0
    ensures New(raw) == Failure(NotPositive("firingLines")) <==>
      raw.laps > 0 && raw.lapLen > 0 && raw.firingLines <= 0
    ensures New(raw) == Failure(NotPositive("penaltyLen")) <==>
      raw.laps > 0 && raw.lapLen > 0 && raw.firingLines > 0 && raw.penaltyLen <= 0
    ensures New(raw) == Failure(BadStart(raw.start)) <==>
      raw.laps > 0 && raw.lapLen > 0 && raw.firingLines > 0 && raw.penaltyLen > 0 &&
      ParseTimeOfDay(raw.start).None?
    ensures New(raw) == Failure(BadStartDelta) <==>
      raw.laps > 0 && raw.lapLen > 0 && raw.firingLines > 0 && raw.penaltyLen > 0 &&
      ParseTimeOfDay(raw.start).Some? && |Split(raw.startDelta, ':')| != 3
  {
  }

  /** A start window written `h:m:s` with plain non-negative numbers is
      h hours, m minutes and s seconds. */
  lemma StartDeltaOfNumbers(text: string, h: nat, m: nat, s: nat)
    requires h < 1000 && m < 1000 && s < 1000
    requires text == IntToString(h) + ":" + IntToString(m) + ":" + IntToString(s)
    ensures |Split(text, ':')| == 3
    ensures StartDelta(Split(text, ':')) == h * HourMs + m * MinuteMs + s * SecondMs
  {
    SplitThree(Decimal(h), Decimal(m), Decimal(s));
    DurationPartOfDecimal(h, HourMs);
    DurationPartOfDecimal(m, MinuteMs);
    DurationPartOfDecimal(s, SecondMs);
  }

  /** A configuration with positive counts, a start written `HH:MM:SS` and a
      window written `h:m:s` in plain digits is accepted, with the start and the
      window it spells. */
  lemma NewOfWellFormed(raw: Config, h: nat, m: nat, sec: nat, dh: nat, dm: nat, ds: nat)
    requires raw.laps > 0 && raw.lapLen > 0 && raw.firingLines > 0 && raw.penaltyLen > 0
    requires h < 24 && m < 60 && sec < 60 && raw.start == HmsText(h, m, sec)
    requires dh < 1000 && dm < 1000 && ds < 1000
    requires raw.startDelta == IntToString(dh) + ":" + IntToString(dm) + ":" + IntToString(ds)
    ensures New(raw).Success?
    ensures New(raw).value.parsedStart == h * HourMs + m * MinuteMs + sec * SecondMs
    ensures New(raw).value.parsedStartDelta == dh * HourMs + dm * MinuteMs + ds * SecondMs
    ensures New(raw).value == raw.(parsedStart := New(raw).value.parsedStart, parsedStartDelta := New(raw).value.parsedStartDelta)
  {
    ParseTimeOfDayOfDigits(h, m, sec);
    StartDeltaOfNumbers(raw.startDelta, dh, dm, ds);
  }

  lemma DurationPartOfDecimal(n: nat, unitMs: nat)
    requires n < 1000 && 0 < unitMs <= HourMs
    ensures DurationPart(Decimal(n), unitMs) == n * unitMs
  {
    DecimalValue(n);
    var d := Decimal(n);
    assert d[0] != '+' && d[0] != '-' by { assert IsDigit(d[0]); }
    assert n * unitMs <= 1000 * HourMs;
  }

  lemma SplitThree(a: string, b: string, c: string)
    requires AllDigits(a) && AllDigits(b) && AllDigits(c)
    ensures Split(a + ":" + b + ":" + c, ':') == [a, b, c]
  {
    NoColonInDigits(a);
    NoColonInDigits(b);
    NoColonInDigits(c);
    assert a + ":" + b + ":" + c == a + ([':'] + (b + ([':'] + c)));
    SplitAtFirst(a, b + ([':'] + c));
    SplitAtFirst(b, c);
  }

  lemma NoColonInDigits(d: string)
    requires AllDigits(d)
    ensures ':' !in d
  {
  }

  /** Splitting at the first separator. */
  lemma SplitAtFirst(head: string, tail: string)
    requires ':' !in head
    ensures Split(head + ([':'] + tail), ':') == [head] + Split(tail, ':')
  {
    var s := head + ([':'] + tail);
    IndexOfAfter(head, tail);
    assert s[..|head|] == head;
    assert s[|head| + 1..] == tail;
  }

  lemma IndexOfAfter(head: string, tail: string)
    requires ':' !in head
    ensures ':' in head + ([':'] + tail)
    ensures IndexOf(head + ([':'] + tail), ':') == |head|
  {
    var s := head + ([':'] + tail);
    assert s[|head|] == ':';
    assert s[..|head|] == head;
  }
}
