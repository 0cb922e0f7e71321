/** The records of entity.go: a competitor's accumulated state and one event of
    the log. */
module Entity {

  /** The competitor's status text: empty, "disqualified" or "finished" are the
      only values ever written. */
  datatype Status = Unset | Disqualified | Finished

  /** entity.go's `Competitor`. Instants are milliseconds since 0000-01-01
      00:00:00 UTC (see module Clock); `laps` and `penalties` are durations in
      milliseconds. `currentStart` and `currentPenaltyStart` are the unexported
      scratch fields. */
  datatype Competitor = Competitor(
    id: int,
    scheduledStart: nat,
    finish: nat,
    laps: seq<int>,
    penalties: int,
    penaltyLaps: int,
    hits: int,
    status: Status,
    extra: string,
    currentStart: nat,
    currentPenaltyStart: nat)

  /** entity.go's `Event`: the clock text as written, the event kind, the
      competitor it concerns and the free text after the two numbers. */
  datatype Event = Event(time: string, kind: int, competitorId: int, extra: string)

  /** The store keeps each competitor under its own id. */
  predicate WellKeyed(m: map<int, Competitor>)
  {
    forall id :: id in m ==> m[id].id == id
  }
}
