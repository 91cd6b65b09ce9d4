/** Calendar days as day numbers counted from 1970-01-01, a Thursday.  ISO dates order the same way. */
module Calendar {
  type Day = int

  /** Monday is 1 and Sunday is 7, as the restriction schedules number them. */
  function Weekday(day: Day): (w: int)
    ensures 1 <= w <= 7
  {
    (day + 3) % 7 + 1
  }

  lemma {:induction false} WeekdayRepeats(day: Day, weeks: int)
    ensures Weekday(day + 7 * weeks) == Weekday(day)
  {
  }

  /** The nights of the half-open stay [startsOn, endsOn), in order. */
  function Nights(startsOn: Day, endsOn: Day): (r: seq<Day>)
    ensures |r| == if startsOn < endsOn then endsOn - startsOn else 0
    ensures forall i :: 0 <= i < |r| ==> r[i] == startsOn + i
  {
    if startsOn < endsOn then seq(endsOn - startsOn, i => startsOn + i) else []
  }

  /** The check-out day itself is not a night. */
  predicate OccupiesNight(startsOn: Day, endsOn: Day, night: Day) {
    startsOn <= night < endsOn
  }
}
