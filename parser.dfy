/** parser.go: reading one event line, the effect of an event on the competitor
    store (`processEvent`), and the loop that feeds every line of the log through
    both and ends with the resulting table (`parseEvents`). */
module Parser {
  import opened Wrappers
  import opened Text
  import opened Clock
  import opened Entity
  import opened Config
  import opened Writer

  // ---------------------------------------------------------------------------
  // parseEventLine

  /** Why a line is refused: a missing `]` or fewer than two numbers after it
      (Go's "bad format"), or a time that `time.Parse` rejects. */
  datatype ParseError = BadFormat | BadTime(text: string)

  /** A line whose first character is `]`: the text before the bracket is empty
      and dropping its first character panics. */
  predicate SlicePanics(line: string)
  {
    |line| > 0 && line[0] == ']'
  }

  /** `parseEventLine`: the text up to the first `]`, less its first byte and
      trimmed, is the time; what follows the bracket holds the numbers. When the
      first character takes several bytes, the rest of its bytes stay in front of
      the time, so the time does not parse. */
  function ParseEventLine(line: string): (r: Result<Event, ParseError>)
    requires !SlicePanics(line)
    ensures ']' !in line ==> r == Failure(BadFormat)
    ensures ']' in line && line[0] as int >= 0x80 ==> r.Failure? && r.error.BadTime?
    ensures r.Success? ==> ParseClock(r.value.time).Some?
    ensures r.Success? ==> MinInt64 <= r.value.kind <= MaxInt64
    ensures r.Success? ==> MinInt64 <= r.value.competitorId <= MaxInt64
    ensures r.Failure? && r.error.BadTime? ==> ParseClock(r.error.text).None?
  {
    if ']' !in line then Failure(BadFormat)
    else
      var k := IndexOf(line, ']');
      var raw := LeftoverBytes(line[0]) + line[1..k];
      FirstByteSliced(line[0], line[1..k]);
      ReadEvent(TrimSpace(raw), line[k + 1..])
  }

  /** The bytes left of a multi-byte first character make the time unreadable. */
  lemma FirstByteSliced(first: char, time: string)
    ensures first as int >= 0x80 ==> ParseClock(TrimSpace(LeftoverBytes(first) + time)).None?
  {
    if first as int >= 0x80 {
      var raw := LeftoverBytes(first) + time;
      assert raw[0] == '\U{FFFD}';
      TrimSpaceKeepsFirst(raw);
    }
  }

  /** The rest of `parseEventLine` once the line is cut at its first `]`: the time
      must be a `15:04:05.000` clock reading; after the bracket come at least two
      whitespace-separated fields, read with `%d` as the event kind and the
      competitor id; the remaining fields joined by single spaces are the extra
      text. */
  function ReadEvent(time: string, rest: string): (r: Result<Event, ParseError>)
    ensures r.Success? ==> r.value.time == time && ParseClock(time).Some?
    ensures r.Success? ==> MinInt64 <= r.value.kind <= MaxInt64
    ensures r.Success? ==> MinInt64 <= r.value.competitorId <= MaxInt64
    ensures r.Failure? && r.error.BadTime? ==> r.error.text == time && ParseClock(time).None?
    ensures ParseClock(time).Some? ==>
      (r.Success? <==> var fs := Fields(TrimSpace(rest));
                       |fs| >= 2 && ScanInt(fs[0]).Some? && ScanInt(fs[1]).Some?)
    ensures r.Failure? && ParseClock(time).Some? ==> r.error == BadFormat
    ensures r.Success? ==> var fs := Fields(TrimSpace(rest));
      |fs| >= 2 && ScanInt(fs[0]) == Some(r.value.kind) && ScanInt(fs[1]) == Some(r.value.competitorId)
      && r.value.extra == Join(fs[2..], " ")
  {
    if ParseClock(time).None? then Failure(BadTime(time))
    else
      var fields := Fields(TrimSpace(rest));
      if |fields| < 2 then Failure(BadFormat)
      else match (ScanInt(fields[0]), ScanInt(fields[1]))
        case (Some(kind), Some(id)) => Success(Event(time, kind, id, Join(fields[2..], " ")))
        case _ => Failure(BadFormat)
  }

  /** The input line that describes event `e`: the time in brackets, the kind,
      the competitor id and, when there is one, the extra text. */
  function EventLine(e: Event): string
  {
    "[" + e.time + "] " + IntToString(e.kind) + " " + IntToString(e.competitorId)
      + (if e.extra == [] then [] else " " + e.extra)
  }

  /** The extra text is a run of words joined by single spaces. */
  predicate IsWordsOf(words: seq<string>, extra: string)
  {
    (forall i :: 0 <= i < |words| ==> words[i] != [] && NoSpace(words[i]))
    && extra == Join(words, " ")
  }

  /** Cutting a line at its first `]` separates the time from the rest; the first
      character, whatever it is, is dropped unread when it is a single byte. */
  lemma ParseAtBracket(first: char, time: string, rest: string)
    requires first != ']' && first as int < 0x80 && ']' !in time
    ensures ParseEventLine([first] + time + "]" + rest) == ReadEvent(TrimSpace(time), rest)
  {
    var line := [first] + time + "]" + rest;
    var k := |time| + 1;
    assert line[k] == ']' && line[..k] == [first] + time;
    assert IndexOf(line, ']') == k;
    assert line[1..k] == time && line[k + 1..] == rest;
    assert LeftoverBytes(first) + time == time;
  }

  /** The kind, the id and the words, joined by single spaces. */
  lemma NumbersThenWords(e: Event, words: seq<string>)
    requires IsWordsOf(words, e.extra)
    ensures var all := [IntToString(e.kind), IntToString(e.competitorId)] + words;
      Join(all, " ") == IntToString(e.kind) + " " + IntToString(e.competitorId)
                        + (if e.extra == [] then [] else " " + e.extra)
  {
    var kind, id := IntToString(e.kind), IntToString(e.competitorId);
    var all := [kind, id] + words;
    assert all[1..] == [id] + words;
    assert ([id] + words)[1..] == words;
    if words == [] {
      assert Join(all, " ") == kind + " " + Join([id], " ");
    } else {
      JoinEnds(words);
      assert Join(all, " ") == kind + " " + (id + " " + e.extra);
    }
  }

  /** The two numbers followed by the extra words are all words. */
  lemma NumbersAreWords(e: Event, words: seq<string>)
    requires IsWordsOf(words, e.extra)
    ensures var all := [IntToString(e.kind), IntToString(e.competitorId)] + words;
      forall i :: 0 <= i < |all| ==> all[i] != [] && NoSpace(all[i])
  {
    var kind, id := IntToString(e.kind), IntToString(e.competitorId);
    IntToStringIsWord(e.kind);
    IntToStringIsWord(e.competitorId);
    var all := [kind, id] + words;
    forall i | 0 <= i < |all|
      ensures all[i] != [] && NoSpace(all[i])
    {
      if i == 0 {
        assert all[i] == kind;
      } else if i == 1 {
        assert all[i] == id;
      } else {
        assert all[i] == words[i - 2];
      }
    }
  }

  /** After the bracket and its space, the fields are the two numbers and the
      words. */
  lemma FieldsAfterBracket(e: Event, words: seq<string>)
    requires IsWordsOf(words, e.extra)
    ensures var all := [IntToString(e.kind), IntToString(e.competitorId)] + words;
      Fields(TrimSpace(" " + Join(all, " "))) == all
  {
    var all := [IntToString(e.kind), IntToString(e.competitorId)] + words;
    var body := Join(all, " ");
    NumbersAreWords(e, words);
    JoinEnds(all);
    TrimSpaceAfterSpace(body);
    TrimSpaceOfTrimmed(body);
    FieldsOfJoin(all);
  }

  /** The numbers and words after the bracket are read back as they were
      written. */
  lemma ReadEventOfWords(e: Event, words: seq<string>)
    requires ParseClock(e.time).Some?
    requires MinInt64 <= e.kind <= MaxInt64 && MinInt64 <= e.competitorId <= MaxInt64
    requires IsWordsOf(words, e.extra)
    ensures var all := [IntToString(e.kind), IntToString(e.competitorId)] + words;
      ReadEvent(e.time, " " + Join(all, " ")) == Success(e)
  {
    var kind, id := IntToString(e.kind), IntToString(e.competitorId);
    var all := [kind, id] + words;
    FieldsAfterBracket(e, words);
    assert all[2..] == words;
    ScanIntRoundTrip(e.kind, []);
    ScanIntRoundTrip(e.competitorId, []);
    assert kind + [] == kind && id + [] == id;
  }

  /** An event line neither starts nor ends with whitespace. */
  lemma EventLineTrimmed(e: Event, words: seq<string>)
    requires IsWordsOf(words, e.extra)
    ensures TrimSpace(EventLine(e)) == EventLine(e)
  {
    var all := [IntToString(e.kind), IntToString(e.competitorId)] + words;
    var body := Join(all, " ");
    NumbersThenWords(e, words);
    NumbersAreWords(e, words);
    JoinEnds(all);
    var line := EventLine(e);
    assert line == "[" + e.time + "] " + body;
    assert line[|line| - 1] == body[|body| - 1];
    TrimSpaceOfTrimmed(line);
  }

  /** Every event whose time is a clock reading without whitespace or `]`, whose
      numbers fit 64 bits and whose extra text is single-spaced words, is read
      back from its line unchanged; trimming the line first changes nothing. */
  lemma ParseEventLineRoundTrip(e: Event, words: seq<string>)
    requires ParseClock(e.time).Some? && NoSpace(e.time) && ']' !in e.time
    requires MinInt64 <= e.kind <= MaxInt64 && MinInt64 <= e.competitorId <= MaxInt64
    requires IsWordsOf(words, e.extra)
    ensures TrimSpace(EventLine(e)) == EventLine(e)
    ensures !SlicePanics(EventLine(e))
    ensures ParseEventLine(EventLine(e)) == Success(e)
  {
    var all := [IntToString(e.kind), IntToString(e.competitorId)] + words;
    var body := Join(all, " ");
    NumbersThenWords(e, words);
    assert EventLine(e) == "[" + e.time + "]" + (" " + body);
    EventLineTrimmed(e, words);
    ParseAtBracket('[', e.time, " " + body);
    TrimSpaceOfTrimmed(e.time);
    ReadEventOfWords(e, words);
  }

  // ---------------------------------------------------------------------------
  // processEvent

  /** The record that registration creates: the id, and every other field at its
      zero value (the zero time for the instants). */
  function NewCompetitor(id: int): (c: Competitor)
    ensures c.id == id && c.laps == [] && c.status == Unset
    ensures c.hits == 0 && c.penaltyLaps == 0 && c.penalties == 0 && c.extra == []
    ensures c.scheduledStart == c.finish == c.currentStart == c.currentPenaltyStart == ZeroInstant
  {
    Competitor(id, ZeroInstant, ZeroInstant, [], 0, 0, 0, Unset, [], ZeroInstant, ZeroInstant)
  }

  /** The kinds whose handling dereferences the competitor's record, which panics
      when the competitor was never registered. */
  predicate NeedsRecord(kind: int)
  {
    kind == 2 || kind == 4 || 6 <= kind <= 11
  }

  /** The start window: a start strictly before the scheduled start, or strictly
      after the scheduled start plus the configured delta, misses it. */
  predicate MissedStart(now: int, scheduled: int, cfg: Config)
  {
    now < scheduled || now > scheduled + cfg.parsedStartDelta
  }

  /** What an event with a record does to that record, and the event it reports
      in turn, if any: a disqualification (32) or a finish (33) at the same time
      for the same competitor. `now` is the event's time as `time.Parse` reads
      it, the zero time if it does not read. */
  function Update(c: Competitor, e: Event, cfg: Config): (r: (Competitor, Option<Event>))
    requires NeedsRecord(e.kind)
    ensures r.0.id == c.id
    ensures r.1.Some? ==> r.1.value.time == e.time && r.1.value.competitorId == e.competitorId
    ensures r.1.Some? ==> r.1.value.kind == 32 || r.1.value.kind == 33
    ensures r.1.Some? <==> e.kind == 11 || (e.kind == 10 && |c.laps| + 1 == cfg.laps)
                           || (e.kind == 4 && MissedStart(ClockOrZero(e.time), c.scheduledStart, cfg))
  {
    var now := ClockOrZero(e.time);
    match e.kind
    case 2 => (c.(scheduledStart := ClockOrZero(e.extra)), None)
    case 4 =>
      var started := c.(currentStart := c.scheduledStart);
      if MissedStart(now, c.scheduledStart, cfg) then
        (started.(status := Disqualified), Some(Event(e.time, 32, e.competitorId, "missed the start time")))
      else (started, None)
    case 6 => (c.(hits := c.hits + 1), None)
    case 7 => (c.(penaltyLaps := c.penaltyLaps + 5 * (|c.laps| + 1) - c.hits), None)
    case 8 => (c.(currentPenaltyStart := now), None)
    case 9 => (c.(penalties := c.penalties + (now - c.currentPenaltyStart)), None)
    case 10 =>
      var laps := c.laps + [now - c.currentStart];
      if |laps| == cfg.laps then
        (c.(laps := laps, status := Finished, finish := now), Some(Event(e.time, 33, e.competitorId, [])))
      else (c.(laps := laps, currentStart := now), None)
    case 11 => (c.(extra := e.extra), Some(Event(e.time, 32, e.competitorId, e.extra)))
  }

  /** The cases of `processEvent` for a registered competitor's record `c`,
      which Go updates through its pointer. */
  method UpdateRecord(c: Competitor, e: Event, cfg: Config) returns (updated: Competitor, derived: Option<Event>)
    requires NeedsRecord(e.kind)
    ensures (updated, derived) == Update(c, e, cfg)
  {
    var now := ClockOrZero(e.time);
    updated, derived := c, None;
    if e.kind == 2 {
      updated := updated.(scheduledStart := ClockOrZero(e.extra));
    } else if e.kind == 4 {
      updated := updated.(currentStart := updated.scheduledStart);
      if now < updated.scheduledStart || now > updated.scheduledStart + cfg.parsedStartDelta {
        updated := updated.(status := Disqualified);
        derived := Some(Event(e.time, 32, e.competitorId, "missed the start time"));
      }
    } else if e.kind == 6 {
      updated := updated.(hits := updated.hits + 1);
    } else if e.kind == 7 {
      updated := updated.(penaltyLaps := updated.penaltyLaps + 5 * (|updated.laps| + 1) - updated.hits);
    } else if e.kind == 8 {
      updated := updated.(currentPenaltyStart := now);
    } else if e.kind == 9 {
      var penaltyTime := now - updated.currentPenaltyStart;
      updated := updated.(penalties := updated.penalties + penaltyTime);
    } else if e.kind == 10 {
      var lapTime := now - updated.currentStart;
      updated := updated.(laps := updated.laps + [lapTime]);
      if |updated.laps| == cfg.laps {
        updated := updated.(status := Finished, finish := now);
        derived := Some(Event(e.time, 33, e.competitorId, []));
      } else {
        updated := updated.(currentStart := now);
      }
    } else {
      updated := updated.(extra := e.extra);
      derived := Some(Event(e.time, 32, e.competitorId, updated.extra));
    }
  }

  /** The store after one event and the event it reported in turn. */
  datatype Outcome = Outcome(store: map<int, Competitor>, derived: Option<Event>)

  /** `processEvent` on store `m`: registration adds a fresh record unless the id
      has one; the kinds that need a record update it; the rest change nothing. */
  function Step(m: map<int, Competitor>, e: Event, cfg: Config): (r: Outcome)
    requires NeedsRecord(e.kind) ==> e.competitorId in m
    ensures r.store.Keys == if e.kind == 1 then m.Keys + {e.competitorId} else m.Keys
    ensures forall id :: id in m && id != e.competitorId ==> r.store[id] == m[id]
    ensures WellKeyed(m) ==> WellKeyed(r.store)
    ensures r.derived.Some? ==> NeedsRecord(e.kind) && IsNarrated(r.derived.value.kind)
    ensures r.derived.Some? ==> r.derived.value.time == e.time && r.derived.value.competitorId == e.competitorId
    ensures e.kind == 1 ==>
      r.derived == None &&
      r.store[e.competitorId] == (if e.competitorId in m then m[e.competitorId] else NewCompetitor(e.competitorId))
    ensures e.kind != 1 && !NeedsRecord(e.kind) ==> r == Outcome(m, None)
  {
    if e.kind == 1 then
      if e.competitorId in m then Outcome(m, None)
      else Outcome(m[e.competitorId := NewCompetitor(e.competitorId)], None)
    else if NeedsRecord(e.kind) then
      var u := Update(m[e.competitorId], e, cfg);
      Outcome(m[e.competitorId := u.0], u.1)
    else Outcome(m, None)
  }

  /** The `competitors` map that `parseEvents` hands to every `processEvent`
      call; Go's records are pointers updated in place, here each update stores
      the changed record back under its id. */
  class Store {
    var competitors: map<int, Competitor>

    ghost predicate Valid()
      reads this
    {
      WellKeyed(competitors)
    }

    constructor ()
      ensures Valid() && competitors == map[]
    {
      competitors := map[];
    }

    /** `processEvent`: applies `e` to the store and returns the event it
        reported in turn, if any. A kind that needs a record is only called for
        a registered competitor (Go dereferences a nil record otherwise). */
    method ProcessEvent(e: Event, cfg: Config) returns (derived: Option<Event>)
      requires Valid()
      requires NeedsRecord(e.kind) ==> e.competitorId in competitors
      modifies this
      ensures Valid()
      ensures Outcome(competitors, derived) == Step(old(competitors), e, cfg)
    {
      var id := e.competitorId;
      derived := None;
      if e.kind == 1 {
        if id in competitors {
          return;
        }
        competitors := competitors[id := NewCompetitor(id)];
      } else if NeedsRecord(e.kind) {
        var c := competitors[id];
        c, derived := UpdateRecord(c, e, cfg);
        competitors := competitors[id := c];
      }
    }

    /** The body of the loop of `parseEvents` for line `i` of the log: the line is
        trimmed and parsed, a parsed event is written, then processed, and the
        event it reports is written after it. `stop` is `Exhausted` when the
        loop goes on, and otherwise says how it ended here (the error return or
        the panic). */
    method Turn(lines: seq<string>, i: nat, cfg: Config) returns (turn: seq<Event>, stop: Stop)
      requires Valid() && i < |lines|
      modifies this
      ensures Valid()
      ensures var r := FeedLine(old(competitors), ReadAll(lines)[i], cfg);
        turn == r.written && competitors == r.store && stop == r.stop
    {
      ReadAllAt(lines, i);
      var read := ReadLine(lines[i]);
      turn := [];
      if read.Refused? {
        stop := Malformed(read.error);
      } else if read.Panicked? {
        stop := Crashed;
      } else {
        var e := read.event;
        turn := [e];
        if NeedsRecord(e.kind) && e.competitorId !in competitors {
          stop := Crashed;
        } else {
          var derived := ProcessEvent(e, cfg);
          if derived.Some? {
            turn := turn + [derived.value];
          }
          stop := Exhausted;
        }
      }
    }
  }

  // ---------------------------------------------------------------------------
  // Properties of processEvent

  function SumLaps(laps: seq<int>): int
  {
    if laps == [] then 0 else SumLaps(laps[..|laps| - 1]) + laps[|laps| - 1]
  }

  /** A lap appended to the list adds its time to the total. */
  lemma SumLapsAppend(laps: seq<int>, lap: int)
    ensures SumLaps(laps + [lap]) == SumLaps(laps) + lap
  {
    assert (laps + [lap])[..|laps|] == laps;
  }

  /** The laps of a competitor cover the time from the scheduled start to the
      start of the current lap. */
  predicate LapsCoverRace(c: Competitor)
  {
    SumLaps(c.laps) == c.currentStart - c.scheduledStart
  }

  /** The start event sets the current lap's start to the scheduled start (not to
      the event's own time), so with no lap yet the laps cover the race. */
  lemma StartCoversRace(c: Competitor, e: Event, cfg: Config)
    requires e.kind == 4 && c.laps == []
    ensures LapsCoverRace(Update(c, e, cfg).0)
  {
  }

  /** The laps add up: every event after the start keeps the laps covering the
      race, except the lap that completes the configured count, after which the
      laps add up to exactly the elapsed time the table ranks by. A new draw
      (kind 2) or a repeated start (kind 4) may break this. */
  lemma {:induction false} LapsAddUp(c: Competitor, e: Event, cfg: Config)
    requires NeedsRecord(e.kind) && e.kind != 2 && e.kind != 4
    requires LapsCoverRace(c)
    ensures var c' := Update(c, e, cfg).0;
      if e.kind == 10 && |c'.laps| == cfg.laps then
        c'.status == Finished && SumLaps(c'.laps) == Elapsed(c')
      else LapsCoverRace(c')
  {
    if e.kind == 10 {
      SumLapsAppend(c.laps, ClockOrZero(e.time) - c.currentStart);
    }
  }

  /** A lap event records the time since the current lap started; the lap that
      makes the count equal to the configured laps finishes the competitor at the
      event's time and reports it, any other lap starts the next one. */
  lemma LapEvent(c: Competitor, e: Event, cfg: Config)
    requires e.kind == 10
    ensures var now := ClockOrZero(e.time); var r := Update(c, e, cfg);
      r.0.laps == c.laps + [now - c.currentStart]
      && r.0.scheduledStart == c.scheduledStart
      && if |c.laps| + 1 == cfg.laps then
           r.0.status == Finished && r.0.finish == now && r.0.currentStart == c.currentStart
           && r.1 == Some(Event(e.time, 33, e.competitorId, []))
         else
           r.0.status == c.status && r.0.finish == c.finish && r.0.currentStart == now && r.1 == None
  {
  }

  /** Each kind changes only its own fields: the draw the scheduled start, the
      start the current lap's start and the status, a hit the hits, leaving the
      range the penalty laps, entering and leaving the penalty loop its start and
      the penalty time, a lap the laps, the status, the finish and the lap start,
      and a withdrawal the extra text. The id never changes. */
  lemma UpdateFrame(c: Competitor, e: Event, cfg: Config)
    requires NeedsRecord(e.kind)
    ensures var d := Update(c, e, cfg).0;
      d.id == c.id
      && (e.kind != 2 ==> d.scheduledStart == c.scheduledStart)
      && (e.kind != 4 && e.kind != 10 ==> d.status == c.status && d.currentStart == c.currentStart)
      && (e.kind != 6 ==> d.hits == c.hits)
      && (e.kind != 7 ==> d.penaltyLaps == c.penaltyLaps)
      && (e.kind != 8 ==> d.currentPenaltyStart == c.currentPenaltyStart)
      && (e.kind != 9 ==> d.penalties == c.penalties)
      && (e.kind != 10 ==> d.laps == c.laps && d.finish == c.finish)
      && (e.kind != 11 ==> d.extra == c.extra)
  {
  }

  /** A draw sets the scheduled start to the clock reading of its extra text, or
      to the zero time when that does not read, and changes nothing else. */
  lemma DrawSetsStart(c: Competitor, e: Event, cfg: Config)
    requires e.kind == 2
    ensures var r := Update(c, e, cfg);
      r.1 == None && r.0 == c.(scheduledStart := r.0.scheduledStart)
      && (ParseClock(e.extra).Some? ==> r.0.scheduledStart == ParseClock(e.extra).value)
      && (ParseClock(e.extra).None? ==> r.0.scheduledStart == ZeroInstant)
  {
  }

  /** A start, whatever laps came before it, sets the current lap's start to the
      scheduled start; only that and the status change. */
  lemma StartSetsLapStart(c: Competitor, e: Event, cfg: Config)
    requires e.kind == 4
    ensures var r := Update(c, e, cfg);
      r.0 == c.(currentStart := c.scheduledStart, status := r.0.status)
  {
  }

  /** A visit to the penalty loop, entered at t1 and left at t2, adds t2 - t1 to
      the penalty time and records t1 as the visit's start; nothing else changes
      and nothing is reported. */
  lemma PenaltyVisit(c: Competitor, enter: Event, leave: Event, cfg: Config)
    requires enter.kind == 8 && leave.kind == 9
    ensures var t1 := ClockOrZero(enter.time); var t2 := ClockOrZero(leave.time);
      var inside := Update(c, enter, cfg); var out := Update(inside.0, leave, cfg);
      inside.1 == None && out.1 == None
      && out.0 == c.(currentPenaltyStart := t1, penalties := c.penalties + (t2 - t1))
  {
  }

  /** A competitor who cannot continue keeps the reason as the extra text and is
      reported disqualified (32) with that same text. */
  lemma Withdrawal(c: Competitor, e: Event, cfg: Config)
    requires e.kind == 11
    ensures var r := Update(c, e, cfg);
      r.0 == c.(extra := e.extra) && r.1 == Some(Event(e.time, 32, e.competitorId, e.extra))
  {
  }

  /** A hit adds one to the hits; leaving the range adds the shots fired so far
      (five per range, one range per lap started) less all hits so far. So a
      first range with three hits owes two laps, and a second range with all five
      hit owes those two again. */
  lemma PenaltyLapsRecount(c: Competitor, e: Event, cfg: Config)
    requires e.kind == 6 || e.kind == 7
    ensures var d := Update(c, e, cfg).0;
      (e.kind == 6 ==> d.hits == c.hits + 1 && d.penaltyLaps == c.penaltyLaps)
      && (e.kind == 7 ==> d.hits == c.hits && d.penaltyLaps == c.penaltyLaps + 5 * (|c.laps| + 1) - c.hits)
      && (e.kind == 7 && c.laps == [] && c.hits == 3 && c.penaltyLaps == 0 ==> d.penaltyLaps == 2)
      && (e.kind == 7 && |c.laps| == 1 && c.hits == 8 && c.penaltyLaps == 2 ==> d.penaltyLaps == 4)
  {
  }

  /** Lap events are not capped at the configured count: once the competitor has
      that many laps, another lap event still appends a lap, reports nothing,
      and leaves the status as it was. */
  lemma LapsCanExceedCount(c: Competitor, e: Event, cfg: Config)
    requires e.kind == 10 && |c.laps| >= cfg.laps
    ensures var r := Update(c, e, cfg);
      |r.0.laps| == |c.laps| + 1 > cfg.laps && r.0.status == c.status && r.1 == None
  {
  }

  /** Registering twice is the same as registering once. */
  lemma RegisterIdempotent(m: map<int, Competitor>, e: Event, cfg: Config)
    requires e.kind == 1
    ensures var once := Step(m, e, cfg);
      Step(once.store, e, cfg) == once && once.store[e.competitorId] ==
        if e.competitorId in m then m[e.competitorId] else NewCompetitor(e.competitorId)
  {
  }

  /** A start inside the window keeps the status and reports nothing; a start
      outside it disqualifies with the reason "missed the start time". */
  lemma StartWindow(c: Competitor, e: Event, cfg: Config)
    requires e.kind == 4
    ensures var r := Update(c, e, cfg);
      if MissedStart(ClockOrZero(e.time), c.scheduledStart, cfg) then
        r.0.status == Disqualified &&
        r.1 == Some(Event(e.time, 32, e.competitorId, "missed the start time"))
      else r.0.status == c.status && r.1 == None
  {
  }

  lemma NineFiftyNineParts(d: nat)
    requires d == 9 * MinuteMs + 59 * SecondMs
    ensures DurationParts(d) == (0, 9, 59, 0)
  {
  }

  /** The result column of a race of nine minutes and 59 seconds. */
  lemma FormatNineFiftyNine(d: nat)
    requires d == 9 * MinuteMs + 59 * SecondMs
    ensures FormatDuration(d) == "00:09:59.000"
  {
    NineFiftyNineParts(d);
    FormatDurationShape(d);
    ClockTextNineFiftyNine(0, 9, 59, 0);
  }

  lemma ClockTextNineFiftyNine(h: nat, m: nat, sec: nat, ms: nat)
    requires h == 0 && m == 9 && sec == 59 && ms == 0
    ensures ClockText(h, m, sec, ms) == "00:09:59.000"
  {
    assert h / 10 == 0 && h % 10 == 0 && m / 10 == 0 && m % 10 == 9;
    assert sec / 10 == 5 && sec % 10 == 9 && ms / 100 == 0 && ms / 10 % 10 == 0 && ms % 10 == 0;
    assert DigitChar(0) == '0' && DigitChar(5) == '5' && DigitChar(9) == '9';
  }

  /** The start half of the scenario below: drawn for 10:00:05, started at
      10:00:04, disqualified, with the current lap starting at the draw. */
  lemma EarlyStart(cfg: Config, draw: string, start: string)
    requires ClockOrZero(draw) == 10 * HourMs + 5 * SecondMs
    requires ClockOrZero(start) == 10 * HourMs + 4 * SecondMs
    ensures var drawn := Update(NewCompetitor(1), Event(start, 2, 1, draw), cfg).0;
      var started := Update(drawn, Event(start, 4, 1, []), cfg);
      started.1 == Some(Event(start, 32, 1, "missed the start time"))
      && started.0.status == Disqualified && started.0.laps == []
      && started.0.scheduledStart == started.0.currentStart == 10 * HourMs + 5 * SecondMs
  {
  }

  /** The second lap of the scenario below: from a first lap of 4:59 ending at
      10:05:04, a lap ending at 10:10:04 finishes a two-lap race after 9:59. */
  lemma SecondLap(lap1: Competitor, cfg: Config, end2: string)
    requires cfg.laps == 2 && lap1.laps == [4 * MinuteMs + 59 * SecondMs]
    requires lap1.scheduledStart == 10 * HourMs + 5 * SecondMs
    requires lap1.currentStart == 10 * HourMs + 5 * MinuteMs + 4 * SecondMs
    requires ClockOrZero(end2) == 10 * HourMs + 10 * MinuteMs + 4 * SecondMs
    ensures var lap2 := Update(lap1, Event(end2, 10, 1, []), cfg);
      lap2.1 == Some(Event(end2, 33, 1, []))
      && lap2.0.status == Finished
      && lap2.0.laps == [4 * MinuteMs + 59 * SecondMs, 5 * MinuteMs]
      && Elapsed(lap2.0) == 9 * MinuteMs + 59 * SecondMs
  {
    LapAt(lap1, Event(end2, 10, 1, []), cfg, 10 * HourMs + 10 * MinuteMs + 4 * SecondMs);
    assert [4 * MinuteMs + 59 * SecondMs] + [5 * MinuteMs] == [4 * MinuteMs + 59 * SecondMs, 5 * MinuteMs];
  }

  /** `LapEvent` for a lap whose end reads as `now`. */
  lemma LapAt(c: Competitor, e: Event, cfg: Config, now: nat)
    requires e.kind == 10 && ClockOrZero(e.time) == now
    ensures var r := Update(c, e, cfg);
      r.0.laps == c.laps + [now - c.currentStart]
      && r.0.scheduledStart == c.scheduledStart
      && if |c.laps| + 1 == cfg.laps then
           r.0.status == Finished && r.0.finish == now && r.1 == Some(Event(e.time, 33, e.competitorId, []))
         else
           r.0.currentStart == now && r.1 == None
  {
    LapEvent(c, e, cfg);
  }

  /** A start one second before the draw disqualifies, but the lap that completes
      the configured two laps still marks the competitor finished: the status is
      overwritten, and the laps are measured from the scheduled start. The four
      texts are any that read as the draw at 10:00:05, the start at 10:00:04 and
      the laps ending at 10:05:04 and 10:10:04 (`ParseClockOfDigits` shows the usual
      spellings do). */
  lemma EarlyStartThenFinish(cfg: Config, draw: string, start: string, end1: string, end2: string,
                             drawn: Competitor, started: (Competitor, Option<Event>), lap1: Competitor, lap2: (Competitor, Option<Event>))
    requires cfg.laps == 2
    requires ClockOrZero(draw) == 10 * HourMs + 5 * SecondMs
    requires ClockOrZero(start) == 10 * HourMs + 4 * SecondMs
    requires ClockOrZero(end1) == 10 * HourMs + 5 * MinuteMs + 4 * SecondMs
    requires ClockOrZero(end2) == 10 * HourMs + 10 * MinuteMs + 4 * SecondMs
    requires drawn == Update(NewCompetitor(1), Event(start, 2, 1, draw), cfg).0
    requires started == Update(drawn, Event(start, 4, 1, []), cfg)
    requires lap1 == Update(started.0, Event(end1, 10, 1, []), cfg).0
    requires lap2 == Update(lap1, Event(end2, 10, 1, []), cfg)
    ensures started.1 == Some(Event(start, 32, 1, "missed the start time"))
      && lap2.1 == Some(Event(end2, 33, 1, []))
      && lap2.0.status == Finished
      && lap2.0.laps == [4 * MinuteMs + 59 * SecondMs, 5 * MinuteMs]
      && FormatDuration(Elapsed(lap2.0)) == "00:09:59.000"
  {
    EarlyStart(cfg, draw, start);
    LapAt(started.0, Event(end1, 10, 1, []), cfg, 10 * HourMs + 5 * MinuteMs + 4 * SecondMs);
    SecondLap(lap1, cfg, end2);
    FormatNineFiftyNine(Elapsed(lap2.0));
  }

  // ---------------------------------------------------------------------------
  // parseEvents

  /** How reading the log ended: every line was consumed, a line was refused (the
      error `parseEvents` returns), or the program panicked (a line starting with
      `]`, or an event that needs a record for an unregistered competitor). */
  datatype Stop = Exhausted | Malformed(error: ParseError) | Crashed

  /** The store after feeding the log, the events handed to `writeOutputLog` in
      order (the narrated log is their `Narrate` lines one after the other), and
      how it ended. */
  datatype Replay = Replay(store: map<int, Competitor>, written: seq<Event>, stop: Stop)

  /** What one line of the scanner reads as: an event, a refused line, or a
      panic. */
  datatype Scan = Parsed(event: Event) | Refused(error: ParseError) | Panicked

  /** One line of the scanner as the loop reads it: trimmed, then parsed. */
  function ReadLine(raw: string): (r: Scan)
    ensures r.Parsed? ==> ParseClock(r.event.time).Some?
  {
    var line := TrimSpace(raw);
    if SlicePanics(line) then Panicked
    else match ParseEventLine(line)
      case Failure(err) => Refused(err)
      case Success(e) => Parsed(e)
  }

  /** The event a step reported, as a list of at most one. */
  function Reported(o: Outcome): seq<Event>
  {
    if o.derived.Some? then [o.derived.value] else []
  }

  /** Every line of the log as the loop reads it. */
  function ReadAll(lines: seq<string>): (scanned: seq<Scan>)
    ensures |scanned| == |lines|
  {
    if lines == [] then [] else [ReadLine(lines[0])] + ReadAll(lines[1..])
  }

  /** Reading every line reads each line in its place. */
  lemma {:induction false} ReadAllAt(lines: seq<string>, i: nat)
    requires i < |lines|
    ensures ReadAll(lines)[i] == ReadLine(lines[i])
  {
    if i > 0 {
      ReadAllAt(lines[1..], i - 1);
    }
  }

  /** One turn of the loop of `parseEvents` on store `m`, given what reading the
      line gave: its event is written to the log, then processed, and the event
      that reports, if any, is written after it. `Exhausted` here means "go on". */
  function FeedLine(m: map<int, Competitor>, read: Scan, cfg: Config): (r: Replay)
    ensures r.stop.Exhausted? <==> read.Parsed? && (NeedsRecord(read.event.kind) ==> read.event.competitorId in m)
    ensures r.stop.Exhausted? ==> r.written == [read.event] + Reported(Step(m, read.event, cfg))
    ensures !r.stop.Exhausted? ==> r.store == m && |r.written| <= 1
  {
    match read
    case Refused(err) => Replay(m, [], Malformed(err))
    case Panicked => Replay(m, [], Crashed)
    case Parsed(e) =>
      if NeedsRecord(e.kind) && e.competitorId !in m then Replay(m, [e], Crashed)
      else
        var o := Step(m, e, cfg);
        Replay(o.store, [e] + Reported(o), Exhausted)
  }

  /** The loop of `parseEvents` from store `m` over what the remaining lines
      read as, up to the end of the log or the first line that stops it. */
  function Feed(m: map<int, Competitor>, scanned: seq<Scan>, cfg: Config): (r: Replay)
    decreases |scanned|
  {
    if scanned == [] then Replay(m, [], Exhausted)
    else
      var first := FeedLine(m, scanned[0], cfg);
      if !first.stop.Exhausted? then first
      else
        var rest := Feed(first.store, scanned[1..], cfg);
        Replay(rest.store, first.written + rest.written, rest.stop)
  }

  /** Feeding the log never loses a competitor and keeps every record under
      its own id. */
  lemma {:induction false} FeedKeepsRecords(m: map<int, Competitor>, scanned: seq<Scan>, cfg: Config)
    ensures m.Keys <= Feed(m, scanned, cfg).store.Keys
    ensures WellKeyed(m) ==> WellKeyed(Feed(m, scanned, cfg).store)
    decreases |scanned|
  {
    if scanned != [] {
      var first := FeedLine(m, scanned[0], cfg);
      if first.stop.Exhausted? {
        FeedKeepsRecords(first.store, scanned[1..], cfg);
      }
    }
  }

  /** Reading a log in two parts is reading it whole: the second part starts
      from the store the first one left, unless the first part already stopped. */
  lemma {:induction false} FeedAppend(m: map<int, Competitor>, a: seq<Scan>, b: seq<Scan>, cfg: Config)
    ensures var first := Feed(m, a, cfg);
      var second := Feed(first.store, b, cfg);
      Feed(m, a + b, cfg) ==
        if first.stop.Exhausted? then Replay(second.store, first.written + second.written, second.stop)
        else first
    decreases |a|, 1
  {
    if a == [] {
      assert a + b == b;
    } else if FeedLine(m, a[0], cfg).stop.Exhausted? {
      FeedAppendOn(m, a, b, cfg);
    } else {
      assert (a + b)[0] == a[0];
    }
  }

  /** The case of `FeedAppend` where the first line of `a` goes on. */
  lemma {:induction false} FeedAppendOn(m: map<int, Competitor>, a: seq<Scan>, b: seq<Scan>, cfg: Config)
    requires a != [] && FeedLine(m, a[0], cfg).stop.Exhausted?
    ensures var first := Feed(m, a, cfg);
      var second := Feed(first.store, b, cfg);
      Feed(m, a + b, cfg) ==
        if first.stop.Exhausted? then Replay(second.store, first.written + second.written, second.stop)
        else first
    decreases |a|, 0
  {
    assert (a + b)[0] == a[0] && (a + b)[1..] == a[1..] + b;
    var head := FeedLine(m, a[0], cfg);
    FeedAppend(head.store, a[1..], b, cfg);
    var restA := Feed(head.store, a[1..], cfg);
    if restA.stop.Exhausted? {
      var second := Feed(restA.store, b, cfg);
      AppendAssoc(head.written, restA.written, second.written);
    }
  }

  /** A line that is empty or only whitespace has no `]`: it reads as "bad
      format", which ends the run with nothing written for it. */
  lemma BlankLineStops(m: map<int, Competitor>, blank: string, scanned: seq<Scan>, cfg: Config)
    requires forall i :: 0 <= i < |blank| ==> IsSpace(blank[i])
    ensures ReadLine(blank) == Refused(BadFormat)
    ensures Feed(m, [ReadLine(blank)] + scanned, cfg) == Replay(m, [], Malformed(BadFormat))
  {
    TrimLeftOfSpaces(blank);
  }

  lemma AppendAssoc(a: seq<Event>, b: seq<Event>, c: seq<Event>)
    ensures (a + b) + c == a + (b + c)
  {
  }

  /** Feeding from position `i` is one turn of the loop followed, when that
      turn goes on, by feeding from position `i + 1`. */
  lemma FeedUnfold(m: map<int, Competitor>, scanned: seq<Scan>, i: nat, cfg: Config)
    requires i < |scanned|
    ensures var here := FeedLine(m, scanned[i], cfg);
      var rest := Feed(here.store, scanned[i + 1..], cfg);
      Feed(m, scanned[i..], cfg) ==
        if here.stop.Exhausted? then Replay(rest.store, here.written + rest.written, rest.stop)
        else here
  {
    assert scanned[i..][0] == scanned[i] && scanned[i..][1..] == scanned[i + 1..];
  }

  /** `parseEvents` without the files: starting from an empty store, every line
      is read, written and processed until the log ends or a line stops it; only
      a log read to its end gets the resulting table. */
  method ParseEvents(lines: seq<string>, cfg: Config) returns (written: seq<Event>, stop: Stop, table: Option<seq<Row>>)
    ensures var r := Feed(map[], ReadAll(lines), cfg);
      written == r.written && stop == r.stop
    ensures table.Some? <==> stop.Exhausted?
    ensures table.Some? ==> IsResultingTable(table.value, Feed(map[], ReadAll(lines), cfg).store, cfg)
  {
    ghost var scanned := ReadAll(lines);
    ghost var all := Feed(map[], scanned, cfg);
    var store := new Store();
    written := [];
    var i := 0;
    while i < |lines|
      invariant 0 <= i <= |lines|
      invariant store.Valid()
      invariant var rest := Feed(store.competitors, scanned[i..], cfg);
        written + rest.written == all.written && rest.store == all.store && rest.stop == all.stop
    {
      ghost var before, writtenBefore := store.competitors, written;
      FeedUnfold(before, scanned, i, cfg);
      var turn, turnStop := store.Turn(lines, i, cfg);
      written := written + turn;
      if !turnStop.Exhausted? {
        stop, table := turnStop, None;
        return;
      }
      ghost var rest := Feed(store.competitors, scanned[i + 1..], cfg);
      AppendAssoc(writtenBefore, turn, rest.written);
      i := i + 1;
    }
    assert scanned[i..] == [];
    stop := Exhausted;
    var rows := ResultingTable(store.competitors, cfg);
    table := Some(rows);
  }
}
