/** writer.go: the narrated log line of each event, `formatDuration`, and the
    rows of the resulting table. */
module Writer {
  import opened Wrappers
  import opened Text
  import opened Clock
  import opened Entity
  import opened Config

  // ---------------------------------------------------------------------------
  // Narration (writeOutputLog)

  /** The kinds that have a sentence: the eleven input kinds, 32 (disqualified)
      and 33 (finished). */
  predicate IsNarrated(kind: int)
  {
    1 <= kind <= 11 || kind == 32 || kind == 33
  }

  /** The sentence written after the bracketed time, with its newline. */
  function Sentence(e: Event): (s: string)
    ensures IsNarrated(e.kind) <==> s != []
    ensures s != [] ==> s[|s| - 1] == '\n'
  {
    var id := IntToString(e.competitorId);
    match e.kind
    case 1 => "The competitor(" + id + ") registered\n"
    case 2 => "The start time for the competitor(" + id + ") was set by a draw to " + e.extra + "\n"
    case 3 => "The competitor(" + id + ") is on the start line\n"
    case 4 => "The competitor(" + id + ") has started\n"
    case 5 => "The competitor(" + id + ") is on the firing range(" + e.extra + ")\n"
    case 6 => "The target(" + e.extra + ") has been hit by competitor(" + id + ")\n"
    case 7 => "The competitor(" + id + ") left the firing range\n"
    case 8 => "The competitor(" + id + ") entered the penalty laps\n"
    case 9 => "The competitor(" + id + ") left the penalty laps\n"
    case 10 => "The competitor(" + id + ") ended the main lap\n"
    case 11 => "The competitor(" + id + ") can`t continue: " + e.extra + "\n"
    case 32 => "The competitor(" + id + ") is disqualified: " + e.extra + "\n"
    case 33 => "The competitor(" + id + ") finished the race\n"
    case _ => ""
  }

  /** What one call of `writeOutputLog` appends to the log: the event's time in
      brackets and a space, then the sentence for its kind, if it has one. */
  function Narrate(e: Event): (line: string)
    ensures |line| >= |e.time| + 3 && line[..|e.time| + 3] == "[" + e.time + "] "
    ensures IsNarrated(e.kind) <==> |line| > |e.time| + 3
    ensures IsNarrated(e.kind) ==> line[|line| - 1] == '\n'
  {
    "[" + e.time + "] " + Sentence(e)
  }

  // ---------------------------------------------------------------------------
  // formatDuration

  /** Go's integer division, which truncates toward zero. */
  function TruncDiv(a: int, b: nat): int
    requires b > 0
  {
    if a >= 0 then a / b else -((-a) / b)
  }

  /** Go's `%`, whose result takes the sign of the dividend. */
  function TruncRem(a: int, b: nat): int
    requires b > 0
  {
    a - TruncDiv(a, b) * b
  }

  /** The hours, minutes, seconds and milliseconds that `formatDuration` prints:
      they add back up to the duration, the last three are below their unit in
      size, and all share the duration's sign. */
  function DurationParts(d: int): (p: (int, int, int, int))
    ensures p.0 * HourMs + p.1 * MinuteMs + p.2 * SecondMs + p.3 == d
    ensures -60 < p.1 < 60 && -60 < p.2 < 60 && -1000 < p.3 < 1000
    ensures d >= 0 ==> p.0 >= 0 && p.1 >= 0 && p.2 >= 0 && p.3 >= 0
    ensures d <= 0 ==> p.0 <= 0 && p.1 <= 0 && p.2 <= 0 && p.3 <= 0
  {
    var minutes := TruncDiv(d, MinuteMs);
    var seconds := TruncDiv(d, SecondMs);
    NestedTruncDiv(d);
    (TruncDiv(d, HourMs), TruncRem(minutes, 60), TruncRem(seconds, 60), TruncRem(d, 1000))
  }

  /** Dividing by 1000 and then by 60 is dividing by 60000, and so on up. */
  lemma NestedDiv(a: nat)
    ensures a / SecondMs / 60 == a / MinuteMs
    ensures a / MinuteMs / 60 == a / HourMs
  {
    var q, r := a / MinuteMs, a % MinuteMs;
    assert a == q * 60000 + r && r < 60000;
    assert a / 1000 == q * 60 + r / 1000;
    var q2, r2 := a / HourMs, a % HourMs;
    assert a == q2 * 3600000 + r2 && r2 < 3600000;
    assert a / 60000 == q2 * 60 + r2 / 60000;
  }

  lemma NestedTruncDiv(d: int)
    ensures TruncDiv(TruncDiv(d, SecondMs), 60) == TruncDiv(d, MinuteMs)
    ensures TruncDiv(TruncDiv(d, MinuteMs), 60) == TruncDiv(d, HourMs)
  {
    if d >= 0 {
      NestedDiv(d);
    } else {
      NestedDiv(-d);
    }
  }

  /** `formatDuration`: `%02d:%02d:%02d.%03d` of the four parts. */
  function FormatDuration(d: int): string
  {
    var p := DurationParts(d);
    PadInt(p.0, 2) + ":" + PadInt(p.1, 2) + ":" + PadInt(p.2, 2) + "." + PadInt(p.3, 3)
  }

  /** `HH:MM:SS.mmm` for parts below 100, 60, 60 and 1000. */
  function ClockText(h: nat, m: nat, sec: nat, ms: nat): string
    requires h < 100 && m < 60 && sec < 60 && ms < 1000
  {
    [DigitChar(h / 10), DigitChar(h % 10), ':',
     DigitChar(m / 10), DigitChar(m % 10), ':',
     DigitChar(sec / 10), DigitChar(sec % 10), '.',
     DigitChar(ms / 100), DigitChar(ms / 10 % 10), DigitChar(ms % 10)]
  }

  /** Below 100 hours the text has the fixed shape `HH:MM:SS.mmm`. */
  lemma FormatDurationShape(d: nat)
    requires d < 100 * HourMs
    ensures var p := DurationParts(d);
      FormatDuration(d) == ClockText(p.0, p.1, p.2, p.3)
  {
    var p := DurationParts(d);
    assert 0 <= p.0 < 100;
    PaddedClock(p.0, p.1, p.2, p.3);
  }

  /** Zero padding the four parts gives the fixed-width clock text. */
  lemma PaddedClock(h: nat, m: nat, sec: nat, ms: nat)
    requires h < 100 && m < 60 && sec < 60 && ms < 1000
    ensures PadInt(h, 2) + ":" + PadInt(m, 2) + ":" + PadInt(sec, 2) + "." + PadInt(ms, 3)
            == ClockText(h, m, sec, ms)
  {
    PadTwo(h);
    PadTwo(m);
    PadTwo(sec);
    PadThree(ms);
  }

  /** Reading `HH:MM:SS.mmm` written with two and three digits. */
  lemma ParseClockOfDigits(h: nat, m: nat, sec: nat, ms: nat)
    requires h < 24 && m < 60 && sec < 60 && ms < 1000
    ensures ParseClock(ClockText(h, m, sec, ms))
            == Some(h * HourMs + m * MinuteMs + sec * SecondMs + ms)
  {
    var fraction := [DigitChar(ms / 100), DigitChar(ms / 10 % 10), DigitChar(ms % 10)];
    var rest := ['.'] + fraction;
    assert HmsText(h, m, sec) + rest == ClockText(h, m, sec, ms);
    ParseHmsOfDigits(h, m, sec, rest);
    assert rest[1..] == fraction;
    FractionOfDigits(ms);
  }

  /** Three digits after the separator read back as the milliseconds they were
      written from. */
  lemma FractionOfDigits(ms: nat)
    requires ms < 1000
    ensures FractionMs([DigitChar(ms / 100), DigitChar(ms / 10 % 10), DigitChar(ms % 10)]) == Some(ms)
  {
    ThreeDigitSplit(ms);
    FractionOfThree(ms / 100, ms / 10 % 10, ms % 10);
  }

  lemma FractionOfThree(a: nat, b: nat, c: nat)
    requires a < 10 && b < 10 && c < 10
    ensures FractionMs([DigitChar(a), DigitChar(b), DigitChar(c)]) == Some(100 * a + 10 * b + c)
  {
  }

  lemma ThreeDigitSplit(n: nat)
    requires n < 1000
    ensures n == 100 * (n / 100) + 10 * (n / 10 % 10) + n % 10
  {
  }

  /** A formatted duration shorter than a day reads back, as a clock reading with
      the `15:04:05.000` layout, to the same number of milliseconds. */
  lemma ParseFormattedDuration(d: nat)
    requires d < DayMs
    ensures ParseClock(FormatDuration(d)) == Some(d)
  {
    var p := DurationParts(d);
    assert 0 <= p.0 < 24;
    ParseClockOfDigits(p.0, p.1, p.2, p.3);
    FormatDurationShape(d);
  }

  // ---------------------------------------------------------------------------
  // The resulting table (writeResultingTable)

  /** One line of the table without its speeds: the result column, the id, one
      slot per configured lap (the lap's duration, or nothing for `{,}`), the
      penalty time (nothing for `{,}`), and the hits over the shots. */
  datatype Row = Row(
    standing: string,
    id: int,
    laps: seq<Option<int>>,
    penalty: Option<int>,
    hits: int,
    shots: int)

  /** The ranking key: finish minus scheduled start, for every competitor. */
  function Elapsed(c: Competitor): int
  {
    c.finish - c.scheduledStart
  }

  predicate SortedByElapsed(cs: seq<Competitor>)
  {
    forall i, j :: 0 <= i < j < |cs| ==> Elapsed(cs[i]) <= Elapsed(cs[j])
  }

  /** `cs` holds every competitor of the store exactly once and nothing else, in
      non-decreasing order of elapsed time; the order among equal keys is left
      open, as Go's map iteration and unstable sort leave it. */
  predicate IsRanking(cs: seq<Competitor>, m: map<int, Competitor>)
  {
    |cs| == |m|
    && (forall c :: c in cs ==> c.id in m && m[c.id] == c)
    && (forall id :: id in m ==> multiset(cs)[m[id]] == 1)
    && SortedByElapsed(cs)
  }

  /** The row written for competitor `c`. */
  predicate IsRowOf(row: Row, c: Competitor, cfg: Config)
  {
    row.standing == (if c.status == Disqualified then "[NotStarted]"
                     else if c.status == Finished then FormatDuration(Elapsed(c))
                     else "[NotFinished]")
    && row.id == c.id
    && |row.laps| == (if cfg.laps > 0 then cfg.laps else 0)
    && (forall i :: 0 <= i < |row.laps| ==>
          row.laps[i] == if i < |c.laps| then Some(c.laps[i]) else None)
    && row.penalty == (if c.penaltyLaps != 0 then Some(c.penalties) else None)
    && row.hits == c.hits
    && row.shots == |c.laps| * 5
  }

  /** The table for store `m`: the rows of a ranking of its competitors. */
  ghost predicate IsResultingTable(rows: seq<Row>, m: map<int, Competitor>, cfg: Config)
  {
    exists cs :: IsRanking(cs, m) && |rows| == |cs| &&
      forall i :: 0 <= i < |rows| ==> IsRowOf(rows[i], cs[i], cfg)
  }

  /** The lap slots of one row: exactly `count` of them (none if `count` is not
      positive), slot i filled with lap i when that lap exists. Laps beyond
      `count` are not shown. */
  method LapSlots(laps: seq<int>, count: int) returns (slots: seq<Option<int>>)
    ensures |slots| == (if count > 0 then count else 0)
    ensures forall i :: 0 <= i < |slots| ==> (slots[i].Some? <==> i < |laps|)
    ensures forall i :: 0 <= i < |slots| && i < |laps| ==> slots[i] == Some(laps[i])
  {
    slots := [];
    var i := 0;
    while i < count
      invariant 0 <= i <= (if count > 0 then count else 0) && |slots| == i
      invariant forall k :: 0 <= k < i ==> slots[k] == if k < |laps| then Some(laps[k]) else None
    {
      if i < |laps| {
        slots := slots + [Some(laps[i])];
      } else {
        slots := slots + [None];
      }
      i := i + 1;
    }
  }

  /** The result column of a row: a disqualified competitor did not start, a
      finisher gets the elapsed time, anyone else did not finish. */
  method StandingOf(c: Competitor) returns (standing: string)
    ensures c.status == Disqualified ==> standing == "[NotStarted]"
    ensures c.status == Finished ==> standing == FormatDuration(Elapsed(c))
    ensures c.status == Unset ==> standing == "[NotFinished]"
  {
    if c.status == Disqualified {
      standing := "[NotStarted]";
    } else if c.status == Finished {
      standing := FormatDuration(c.finish - c.scheduledStart);
    } else {
      standing := "[NotFinished]";
    }
  }

  /** The row of one competitor, as the body of the table loop computes it. */
  method BuildRow(c: Competitor, cfg: Config) returns (row: Row)
    ensures IsRowOf(row, c, cfg)
  {
    var standing := StandingOf(c);
    var slots := LapSlots(c.laps, cfg.laps);
    var penalty := if c.penaltyLaps != 0 then Some(c.penalties) else None;
    row := Row(standing, c.id, slots, penalty, c.hits, |c.laps| * 5);
  }

  /** The `range` loop that copies the store's competitors into a slice, in
      whatever order the map yields them. */
  method CollectCompetitors(m: map<int, Competitor>) returns (values: seq<Competitor>)
    requires WellKeyed(m)
    ensures |values| == |m|
    ensures forall c :: c in values ==> c.id in m && m[c.id] == c
    ensures forall id :: id in m ==> multiset(values)[m[id]] == 1
  {
    values := [];
    var rest := m.Keys;
    while rest != {}
      invariant rest <= m.Keys
      invariant |values| + |rest| == |m|
      invariant forall c :: c in values ==> c.id in m && m[c.id] == c && c.id !in rest
      invariant forall id :: id in m ==> multiset(values)[m[id]] == if id in rest then 0 else 1
      decreases |rest|
    {
      if forall k :: k !in rest {
        assert false;  // rest is not empty
      }
      var key :| key in rest;
      values := values + [m[key]];
      rest := rest - {key};
    }
  }

  predicate SortedUpTo(s: seq<Competitor>, n: nat)
    requires n <= |s|
  {
    forall i, j :: 0 <= i < j < n ==> Elapsed(s[i]) <= Elapsed(s[j])
  }

  /** Exchanges two neighbouring elements. */
  method SwapDown(a: array<Competitor>, j: nat)
    requires 0 < j < a.Length
    modifies a
    ensures a[..] == old(a[..])[j - 1 := old(a[j])][j := old(a[j - 1])]
    ensures multiset(a[..]) == multiset(old(a[..]))
  {
    a[j - 1], a[j] := a[j], a[j - 1];
  }

  /** Moves `a[i]` down into the sorted prefix `a[..i]`. */
  method InsertInto(a: array<Competitor>, i: nat)
    requires 0 < i < a.Length && SortedUpTo(a[..], i)
    modifies a
    ensures SortedUpTo(a[..], i + 1)
    ensures multiset(a[..]) == multiset(old(a[..]))
  {
    var j := i;
    while j > 0 && Elapsed(a[j - 1]) > Elapsed(a[j])
      invariant 0 <= j <= i
      invariant multiset(a[..]) == multiset(old(a[..]))
      invariant forall p, q :: 0 <= p < q <= i && q != j ==> Elapsed(a[p]) <= Elapsed(a[q])
      invariant 0 < j < i ==> Elapsed(a[j - 1]) <= Elapsed(a[j + 1])
    {
      SwapDown(a, j);
      j := j - 1;
    }
  }

  /** `sort.Slice` by elapsed time, in place: afterwards the array is sorted and
      holds the same competitors. */
  method SortByElapsed(a: array<Competitor>)
    modifies a
    ensures SortedByElapsed(a[..])
    ensures multiset(a[..]) == multiset(old(a[..]))
  {
    if a.Length == 0 {
      return;
    }
    var i := 1;
    while i < a.Length
      invariant 1 <= i <= a.Length
      invariant SortedUpTo(a[..], i)
      invariant multiset(a[..]) == multiset(old(a[..]))
    {
      InsertInto(a, i);
      i := i + 1;
    }
  }

  /** `writeResultingTable` without the speeds and the file: one row per
      competitor of the store, ranked by elapsed time. */
  method ResultingTable(m: map<int, Competitor>, cfg: Config) returns (rows: seq<Row>)
    requires WellKeyed(m)
    ensures IsResultingTable(rows, m, cfg)
  {
    var values := CollectCompetitors(m);
    var a := new Competitor[|values|](i requires 0 <= i < |values| => values[i]);
    assert a[..] == values;
    SortByElapsed(a);
    var ranking := a[..];
    SortedCopyRanks(values, ranking, m);
    rows := TableRows(ranking, cfg);
  }

  /** A sorted permutation of what `CollectCompetitors` gathered ranks the store. */
  lemma SortedCopyRanks(values: seq<Competitor>, ranking: seq<Competitor>, m: map<int, Competitor>)
    requires |values| == |m|
    requires forall c :: c in values ==> c.id in m && m[c.id] == c
    requires forall id :: id in m ==> multiset(values)[m[id]] == 1
    requires multiset(ranking) == multiset(values) && SortedByElapsed(ranking)
    ensures IsRanking(ranking, m)
  {
    assert |ranking| == |multiset(ranking)| == |multiset(values)| == |values|;
    forall c | c in ranking
      ensures c.id in m && m[c.id] == c
    {
      assert c in multiset(ranking);
    }
  }

  /** The loop of `writeResultingTable` over the ranked competitors: one row
      each, in order. */
  method TableRows(ranking: seq<Competitor>, cfg: Config) returns (rows: seq<Row>)
    ensures |rows| == |ranking|
    ensures forall k :: 0 <= k < |rows| ==> IsRowOf(rows[k], ranking[k], cfg)
  {
    rows := [];
    for i := 0 to |ranking|
      invariant |rows| == i
      invariant forall k :: 0 <= k < i ==> IsRowOf(rows[k], ranking[k], cfg)
    {
      var row := BuildRow(ranking[i], cfg);
      rows := rows + [row];
    }
  }

  /** A competitor who was never drawn and never finished has the zero time in
      both instants, so an elapsed time of zero: such a competitor is ranked
      ahead of every finisher whose race took any time at all. */
  lemma UndrawnRanksAhead(cs: seq<Competitor>, i: nat, j: nat)
    requires SortedByElapsed(cs) && i < |cs| && j < |cs|
    requires Elapsed(cs[i]) > 0
    requires cs[j].finish == ZeroInstant && cs[j].scheduledStart == ZeroInstant
    ensures j < i
  {
  }

  /** With a scheduled start, every competitor who finished is ranked ahead of
      every competitor who never did: an unset finish is the zero time, a year
      after any clock reading. */
  lemma FinishersRankFirst(cs: seq<Competitor>, i: nat, j: nat)
    requires SortedByElapsed(cs) && i < |cs| && j < |cs|
    requires cs[i].finish < DayMs && cs[i].scheduledStart < DayMs
    requires cs[j].finish == ZeroInstant && cs[j].scheduledStart < DayMs
    ensures i < j
  {
  }
}
