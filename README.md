# Biathlon event log: a Dafny model

The program reads a race configuration and a chronological log of race events,
one per line (`[HH:MM:SS.mmm] kind competitorId extra…`). It writes a narrated log,
with one sentence per event and the events it derives from them (32 for a
disqualification, 33 for a finish). At the end of the log it writes the resulting
table, which ranks every competitor by finish time minus scheduled start.

The model covers the four core files:

- `config.go`: validating the decoded configuration and assembling the start window.
  This is module `Config`.
- `entity.go`: the competitor and event records. This is module `Entity`.
- `parser.go`: reading a line (`parseEventLine`), the per-competitor state machine
  (`processEvent`) and the driving loop (`parseEvents`). This is module `Parser`.
- `writer.go`: the sentence of each event (`writeOutputLog`), `formatDuration` and
  the rows of the table (`writeResultingTable`). This is module `Writer`.

Two modules model the parts of Go's standard library that the program relies on:

- `Text`: `strings.TrimSpace`, `strings.Fields`, `strings.Join`, `strings.Split`,
  `%v`, `%0Nd` and `%d` scanning.
- `Clock`: `time.Parse` with the layouts `15:04:05.000` and `15:04:05`, and
  `time.ParseDuration` for one unit.

Instants are whole milliseconds since 0000-01-01. A parsed clock reading lies on
that first day. The zero `time.Time`, which is what an unset field or a failed
parse holds, is 366 days later. Durations are signed milliseconds. Go's truncating
`/` and `%` are written out as `TruncDiv` and `TruncRem`. A Go panic is modelled
in two places:

- A precondition on the members that would panic.
- The `Crashed` stop of the driving loop.

Go updates a competitor through a pointer held in a map. Here the map is the
`competitors` field of class `Parser.Store`. Each update stores the changed record
back under its id. The `parseEvents` loop is the method `Parser.ParseEvents`,
proved against the functional specification `Parser.Feed`. The table sort is an
in-place insertion sort on an array, proved sorted and a permutation.

Some consequences of the code, each proved about the model:

- A `Started` event strictly before the scheduled start disqualifies the
  competitor (parser.go:113). A start at 10:00:04 for a draw at 10:00:05 is
  disqualified (`Parser.EarlyStart`).
- The lap that completes the configured count sets the status to finished
  whatever it was before (parser.go:140-142). So a disqualified competitor can
  end up finished (`Parser.EarlyStartThenFinish`).
- The start event copies the scheduled start into the lap start (parser.go:112),
  so the first lap is measured from the draw, not from the start event. In the
  race of `Parser.EarlyStartThenFinish`, laps ending at 10:05:04 and 10:10:04
  give a result of 9:59.
- Lap events are never capped: every one appends a lap, and only the one that
  makes the count equal to the configured laps finishes (parser.go:139-140,
  `Parser.LapsCanExceedCount`).
- Leaving the range adds `5*(laps+1) - hits` to the penalty laps, where `hits`
  counts every range so far (parser.go:131). Three hits at the first range and
  all five at the second leave 2 and then 4 laps owed
  (`Parser.PenaltyLapsRecount`).
- The ranking key is finish minus scheduled start for every competitor
  (writer.go:72), and an unset instant is the zero time, a year after any clock
  reading. So:
  - a drawn competitor who never finished ranks after every finisher
    (`Writer.FinishersRankFirst`);
  - a competitor never drawn and never finished has a key of zero, and ranks
    ahead of every finisher whose race took any time (`Writer.UndrawnRanksAhead`).

## Model

| member | source | states |
|---|---|---|
| Text.TrimSpace | parser.go:34 | the trimmed line neither starts nor ends with whitespace |
| Text.TrimSpaceParts | parser.go:34 | trimming removes exactly a run of whitespace from each end: the result sits in the text after leading whitespace and is followed only by whitespace |
| Text.TrimSpaceKeepsFirst | parser.go:65 | text starting with a non-space character keeps that character in front after trimming |
| Text.TrimSpaceOfTrimmed | parser.go:34 | trimming text that neither starts nor ends with whitespace leaves it unchanged |
| Text.Fields | parser.go:70 | every field is non-empty and has no whitespace |
| Text.FieldsOfJoin | parser.go:70-84 | words joined by single spaces split back into the same words |
| Text.Split | config.go:54 | there is at least one piece, and no piece contains the separator |
| Text.SplitJoin | config.go:54 | joining the pieces with the separator gives the text back |
| Text.Join | parser.go:84 | the words joined by the separator; `FieldsOfJoin` and `SplitJoin` are its inverses |
| Text.ScanInt | parser.go:75-81 | a value that `%d` reads fits in 64 bits, and the field starts with a digit or with a sign followed by a digit |
| Text.ScanIntRoundTrip | parser.go:75-81 | `%d` reads back any 64-bit integer that `%v` rendered, whatever non-digit text follows it |
| Text.DecimalValue | writer.go:35 | the value of a decimal rendering is the number rendered |
| Text.PadInt | writer.go:140 | `%0Nd` of one number; `PadIntValue` states what it means |
| Text.PadIntValue | writer.go:140 | the `%0Nd` text is at least N wide and reads back as the number: digits when it is not negative, a minus sign and digits otherwise |
| Text.LeftoverBytes | parser.go:65 | dropping one byte leaves nothing of an ASCII first character, and otherwise the rest of its UTF-8 bytes, each reading as U+FFFD |
| Clock.ParseHms | parser.go:66 | the `15:04:05` prefix reads as a time below one day and consumes at least seven characters |
| Clock.FractionMs | parser.go:66 | the `.000` fraction reads as fewer than 1000 milliseconds |
| Clock.ParseClock | parser.go:66 | an accepted event time lies on the first day |
| Clock.ParseTimeOfDay | config.go:49 | an accepted start time lies on the first day |
| Clock.ParseHmsOfDigits | config.go:49 | `HH:MM:SS` written with two digits each reads as its hours, minutes and seconds, whatever follows |
| Clock.ParseTimeOfDayOfDigits | config.go:49 | every `HH:MM:SS` reading of a time of day is accepted as the start, with its value |
| Clock.ClockOrZero | parser.go:96 | the event's instant is the parsed clock reading when the text parses, and exactly the zero time otherwise |
| Clock.DurationPart | config.go:59-61 | a start-window part that does not end in a digit counts zero |
| Config.StartDelta | config.go:59-62 | the window is the sum of the three parts in hours, minutes and seconds; `StartDeltaOfNumbers` gives its value for plain digits |
| Config.New | config.go:33-65 | succeeds exactly when the four counts are positive, `start` parses and `startDelta` has three parts; on success only the two parsed fields change; a count error names one of the four fields |
| Config.FirstFailureReported | config.go:33-57 | the error returned is that of the first check, in source order, that fails (each case as an if-and-only-if) |
| Config.StartDeltaOfNumbers | config.go:54-62 | a window written `h:m:s` in plain digits splits into three parts and lasts h hours, m minutes and s seconds |
| Config.NewOfWellFormed | config.go:33-65 | a configuration with positive counts, a start written `HH:MM:SS` and a window written `h:m:s` is accepted, with the start and the window it spells, and nothing else changed |
| Writer.Sentence | writer.go:33-60 | exactly kinds 1–11, 32 and 33 have a sentence, and every sentence ends with a newline |
| Writer.Narrate | writer.go:32-60 | the log line starts with the bracketed time and a space; it is longer than that exactly for the narrated kinds, and then ends with a newline |
| Writer.DurationParts | writer.go:135-138 | hours, minutes, seconds and milliseconds add back up to the duration; the last three are below their unit in size; all share the duration's sign |
| Writer.FormatDuration | writer.go:134-141 | the `%02d:%02d:%02d.%03d` text of the four parts; `FormatDurationShape` and `ParseFormattedDuration` state what it means |
| Writer.NestedTruncDiv | writer.go:135-137 | truncating seconds by 60 gives whole minutes, and truncating minutes by 60 gives whole hours, for either sign |
| Writer.FormatDurationShape | writer.go:134-141 | a duration below 100 hours is rendered as fixed-width `HH:MM:SS.mmm` |
| Writer.ParseClockOfDigits | parser.go:66 | `HH:MM:SS.mmm` written with two- and three-digit fields reads back as the same milliseconds |
| Writer.ParseFormattedDuration | writer.go:134-141 | a formatted duration below a day reads back, as an event time, to the same duration |
| Writer.LapSlots | writer.go:106-122 | there is exactly one slot per configured lap; slot i holds lap i when it exists and is empty (`{,}`) otherwise |
| Writer.StandingOf | writer.go:96-102 | the result column is `[NotStarted]` for a disqualified competitor, the formatted elapsed time for a finisher, and `[NotFinished]` otherwise |
| Writer.BuildRow | writer.go:96-128 | the row has the status column (`[NotStarted]`, the formatted elapsed time, or `[NotFinished]`), the id, the lap slots, the penalty time only when penalty laps are owed, and hits over five shots per lap |
| Writer.Elapsed | writer.go:72 | the ranking key, finish minus scheduled start, for every competitor alike |
| Writer.CollectCompetitors | writer.go:66-69 | the slice holds every competitor of the store exactly once and nothing else |
| Writer.SwapDown | writer.go:71-73 | exchanges two neighbours and keeps the same competitors |
| Writer.InsertInto | writer.go:71-73 | inserting the next competitor extends the sorted prefix by one and keeps the same competitors |
| Writer.SortByElapsed | writer.go:71-73 | the array ends up sorted by elapsed time and holds the same competitors (as a multiset) |
| Writer.SortedCopyRanks | writer.go:66-73 | a sorted permutation of the collected competitors ranks the store |
| Writer.TableRows | writer.go:95-129 | there is one row per ranked competitor, in ranking order, each the row of that competitor |
| Writer.ResultingTable | writer.go:65-129 | the rows are the rows of a ranking of the store: each competitor once, in non-decreasing elapsed time |
| Writer.FinishersRankFirst | writer.go:71-73 | in a sorted table, a drawn competitor who finished is ranked ahead of a drawn competitor whose finish is still the zero time |
| Writer.UndrawnRanksAhead | writer.go:71-73 | in a sorted table, a competitor never drawn and never finished (key zero) is ranked ahead of every competitor with a positive elapsed time |
| Parser.ParseEventLine | parser.go:59-92 | a line without `]` is "bad format"; a line whose first character takes several bytes has an unreadable time; an accepted line has a parsable time and 64-bit numbers; a time error names a time that does not parse |
| Parser.FirstByteSliced | parser.go:65-67 | the bytes left of a multi-byte first character make the time fail to parse |
| Parser.ReadEvent | parser.go:65-91 | with a parsable time, the line is accepted exactly when at least two fields follow the bracket and the first two scan with `%d`, and is otherwise "bad format"; an accepted event keeps the trimmed time, takes the kind and id from the two fields and the extra text from the other fields joined by single spaces; a time error carries the time |
| Parser.ParseAtBracket | parser.go:60-65 | for any single-byte first character other than `]`, cutting the line at its first `]` drops that character unread, takes the trimmed time and reads the rest |
| Parser.ReadEventOfWords | parser.go:70-91 | the kind, id and words after the bracket read back as the event they were written from |
| Parser.EventLineTrimmed | parser.go:34 | the line of an event neither starts nor ends with whitespace, so the loop's trimming keeps it |
| Parser.ParseEventLineRoundTrip | parser.go:59-92 | every event with a parsable time free of whitespace and `]`, 64-bit numbers and single-spaced extra words is read back unchanged from its line, which trimming keeps and which does not panic |
| Parser.NewCompetitor | parser.go:103-105 | registration creates a record with the id, no laps, no status, zero counters and the zero time in every instant |
| Parser.Update | parser.go:106-164 | the id is kept; an event is reported exactly for a withdrawal, the lap that reaches the configured count, or a start outside the window; the reported event is 32 or 33, at the same time, for the same competitor |
| Parser.UpdateRecord | parser.go:106-164 | the step-by-step field updates of `processEvent` give the record and report that `Update` specifies |
| Parser.MissedStart | parser.go:113-114 | a start strictly before the scheduled start, or strictly after it plus the window, misses the window; `StartWindow` states its effect |
| Parser.Step | parser.go:94-166 | registration adds the id, keeping an existing record and otherwise creating a fresh one; every other kind keeps the key set; kinds 3, 5 and unknown kinds change nothing and report nothing; other competitors are untouched; records stay under their own ids; only a kind with a record reports, with a narrated kind, the event's time and the competitor |
| Parser.Store.constructor | parser.go:30 | the store starts empty |
| Parser.Store.ProcessEvent | parser.go:94-166 | the new store and the reported event are those of `Step`, and records stay under their own ids |
| Parser.Store.Turn | parser.go:33-44 | the loop's turn for line i writes, changes and stops exactly as `FeedLine` specifies for that line's reading |
| Parser.SumLapsAppend | parser.go:139 | appending a lap adds its time to the laps' total |
| Parser.StartCoversRace | parser.go:112 | the start sets the current lap's start to the scheduled start, so with no lap yet the laps cover the race |
| Parser.LapsAddUp | parser.go:112-153 | after the start, every event except a new draw or start keeps the laps' total equal to the time from the scheduled start to the current lap's start; the lap that reaches the count finishes the competitor with the total equal to the elapsed time the table ranks by |
| Parser.LapEvent | parser.go:137-153 | a lap appends the time since the current lap started; reaching the configured count finishes at the event's time and reports 33; any other lap starts the next lap and reports nothing |
| Parser.UpdateFrame | parser.go:106-164 | each kind changes only its own fields, and the id never changes |
| Parser.DrawSetsStart | parser.go:106-108 | a draw sets the scheduled start to the clock reading of its text, or the zero time when it does not read, and changes nothing else |
| Parser.StartSetsLapStart | parser.go:111-112 | a start, after any number of laps, sets the lap start to the scheduled start and changes nothing else but the status |
| Parser.PenaltyVisit | parser.go:132-136 | entering the penalty loop at t1 and leaving it at t2 adds t2 - t1 to the penalty time, records t1, changes nothing else and reports nothing |
| Parser.Withdrawal | parser.go:154-164 | a competitor who cannot continue keeps the reason as the extra text and is reported disqualified (32) with that same text |
| Parser.PenaltyLapsRecount | parser.go:128-131 | a hit adds one hit; leaving the range adds five shots per range so far less all hits; three hits then eight leave 2 and then 4 laps owed |
| Parser.LapsCanExceedCount | parser.go:137-153 | a lap beyond the configured count is still appended, reports nothing and keeps the status |
| Parser.RegisterIdempotent | parser.go:99-105 | registering twice is registering once, and an existing record is kept |
| Parser.StartWindow | parser.go:111-125 | a start inside the closed window keeps the status and reports nothing; outside it disqualifies with "missed the start time" |
| Parser.EarlyStart | parser.go:106-125 | drawn for 10:00:05 and started at 10:00:04, the competitor is disqualified and the current lap starts at the draw |
| Parser.SecondLap | parser.go:137-153 | a second lap ending at 10:10:04 finishes a two-lap race with laps 4:59 and 5:00 and an elapsed time of 9:59 |
| Parser.LapAt | parser.go:137-153 | `LapEvent` for a lap whose end reads as a given instant |
| Parser.FormatNineFiftyNine | writer.go:134-141 | nine minutes and 59 seconds is rendered `00:09:59.000` |
| Parser.EarlyStartThenFinish | parser.go:106-153 | an early start reports a disqualification, but the second lap still reports a finish, with status finished, laps 4:59 and 5:00 and result `00:09:59.000` |
| Parser.ReadLine | parser.go:34-39 | a line read as an event has a parsable time |
| Parser.ReadAll | parser.go:33-34 | there is one reading per line |
| Parser.ReadAllAt | parser.go:33-34 | reading every line reads each line in its place |
| Parser.FeedLine | parser.go:36-44 | a turn goes on exactly when the line parses and its competitor has a record where one is needed; then it writes the event and what it reports; otherwise the store is unchanged and at most the event is written |
| Parser.Feed | parser.go:33-45 | the loop as a fold over the lines' readings, ending at the first line that stops it; `FeedAppend` and `FeedKeepsRecords` state its properties |
| Parser.FeedKeepsRecords | parser.go:33-45 | feeding the log never loses a competitor and keeps records under their own ids |
| Parser.FeedAppend | parser.go:33-45 | feeding a log in two parts is feeding it whole; the second part starts from the first part's store unless the first part stopped |
| Parser.FeedUnfold | parser.go:33-45 | feeding from line i is one turn followed, when it goes on, by feeding from line i+1 |
| Parser.BlankLineStops | parser.go:34-39 | a blank line reads as "bad format" and ends the run with nothing written for it |
| Parser.ParseEvents | parser.go:13-57 | the events written and how the run ends are those of `Feed` over the lines from an empty store; a table is produced exactly when the log is read to its end, and it is the resulting table of the final store |

## Left out

- Files and I/O are not modelled:
  - reading and JSON-decoding the configuration file (config.go:23-31);
  - opening and creating the output file, and the buffered writes of the log and the table;
  - the deferred closes and the `log.Fatal` on a failed write.
  - The narrated log is the sequence of events written; `Writer.Narrate` gives each one's text.
- main.go is not part of this model.
- Writer.ResultingTable: the speed columns are left out. They divide `float64` values and print them with `%.3f`, and Dafny has no floating point. The `Resulting Table` heading and the brace-and-comma layout of a row are also left out. A row holds the values it prints.
- Writer.DurationParts: Go derives the parts from `float64` hours, minutes and seconds. The model uses exact truncating division, which differs only for durations far beyond any race.
- Config.New: `lapLen` and `penaltyLen` are validated but only the speeds (left out) read them; `firingLines` and `parsedStart` are validated and stored, and nothing in the program reads them.
- Clock.DurationPart: `time.ParseDuration` also accepts decimal fractions (`1.5`) and compound values (`1h30`), and a part carrying its own unit (`500m` in the seconds part is 500 ms in Go). Here only an optionally signed run of digits counts; every other form counts zero.
- Clock.ParseTimeOfDay: a fraction of a second after the seconds is accepted but dropped. Go keeps it in `parsedStart`, which nothing reads.
- Clock.ParseClock: only the `15:04:05.000` layout is modelled, with Go's one- or two-digit hour and its signed two-digit fraction. Other `time.Parse` leniencies are not modelled.
- Integers are unbounded. The 64-bit overflow of Go's `int` counters (hits, penalty laps) and of nanosecond durations is not modelled; no race-length input reaches it.
- Writer.CollectCompetitors: Go's map iteration order and `sort.Slice`'s unstable order of equal keys are left open. `Writer.IsResultingTable` admits any ranking, and the insertion sort picks one.
- Parser.ParseEvents: the lines are given as a sequence. The scanner's 64 KiB line limit and `scanner.Err` are not modelled.
- Text.IsSpace: strings are sequences of code points, so input that is not valid UTF-8 is not modelled.
- Parser.ParseEventLine: where the first character of a line takes several bytes, Go's `[1:]` leaves the rest of its bytes in the time. `Text.LeftoverBytes` writes each of them as U+FFFD, as Go decodes them, so the line is refused with a time error as in Go; the text carried by that error has U+FFFD where Go has the raw bytes.
