/** Inventory restrictions: which rule wins on a day, the sampled stop-sell evaluation of a stay,
    and the seven-day look-ahead that blocks contradictory rules from being activated. */
module Restrictions {
  import opened Collections
  import opened Calendar

  datatype Kind =
    MinimumStay | MaximumStay | ClosedToArrival | ClosedToDeparture | StopSell | MinimumAdvance
  datatype Lifecycle = Draft | Scheduled | Active | Paused | Expired | Archived
  datatype Scope = Property | Category | RoomType

  datatype Rule = Rule(
    id: string,
    name: string,
    kind: Kind,
    value: int,
    scope: Scope,
    targetIds: seq<string>,
    startsOn: Day,
    endsOn: Option<Day>,
    weekdays: seq<int>,
    priority: int,
    lifecycle: Lifecycle)

  /** The dates and weekdays of the schedule, whatever the lifecycle. */
  predicate Covers(rule: Rule, day: Day) {
    && rule.startsOn <= day
    && (rule.endsOn.Some? ==> day <= rule.endsOn.value)
    && Weekday(day) in rule.weekdays
  }

  predicate Live(rule: Rule) {
    rule.lifecycle == Active || rule.lifecycle == Scheduled
  }

  predicate RestrictionApplies(rule: Rule, day: Day) {
    Live(rule) && Covers(rule, day)
  }

  // ---------------------------------------------------------------- choosing a rule for one day

  function Matches(kind: Kind, day: Day): Rule -> bool {
    (rule: Rule) => rule.kind == kind && RestrictionApplies(rule, day)
  }

  function Priority(): Rule -> int {
    (rule: Rule) => rule.priority
  }

  function Winners(rules: seq<Rule>, kind: Kind, day: Day): seq<Rule> {
    Highest(Filter(rules, Matches(kind, day)), Priority())
  }

  function Ids(rules: seq<Rule>): (r: seq<string>)
    ensures |r| == |rules|
  {
    seq(|rules|, i requires 0 <= i < |rules| => rules[i].id)
  }

  datatype Choice = NoRule | Winner(rule: Rule, ids: seq<string>) | Contradiction(ids: seq<string>)

  function Choose(rules: seq<Rule>, kind: Kind, day: Day): Choice {
    var winners := Winners(rules, kind, day);
    if exists w :: w in winners && w.value != winners[0].value then Contradiction(Ids(winners))
    else if winners == [] then NoRule
    else Winner(winners[0], Ids(winners))
  }

  /** What winning means, independently of how the winners are computed. */
  ghost predicate Wins(rules: seq<Rule>, kind: Kind, day: Day, rule: Rule) {
    && rule in rules
    && rule.kind == kind
    && RestrictionApplies(rule, day)
    && forall other :: other in rules && other.kind == kind && RestrictionApplies(other, day)
         ==> other.priority <= rule.priority
  }

  lemma {:induction false} WinnersWin(rules: seq<Rule>, kind: Kind, day: Day)
    ensures forall r :: r in Winners(rules, kind, day) <==> Wins(rules, kind, day, r)
  {
    var matching := Filter(rules, Matches(kind, day));
    forall r | Wins(rules, kind, day, r)
      ensures r in Winners(rules, kind, day)
    {
      assert r in matching;
    }
  }

  /** Two winners with different values. */
  ghost predicate Contradictory(rules: seq<Rule>, kind: Kind, day: Day) {
    exists a, b :: Wins(rules, kind, day, a) && Wins(rules, kind, day, b) && a.value != b.value
  }

  /** All winners agree and say `value`. */
  ghost predicate Decides(rules: seq<Rule>, kind: Kind, day: Day, value: int) {
    && (exists a :: Wins(rules, kind, day, a))
    && (forall a :: Wins(rules, kind, day, a) ==> a.value == value)
  }

  lemma {:induction false} SomeRuleWins(rules: seq<Rule>, kind: Kind, day: Day)
    ensures Winners(rules, kind, day) == [] <==>
              forall r :: r in rules && r.kind == kind ==> !RestrictionApplies(r, day)
  {
    var matching := Filter(rules, Matches(kind, day));
    if matching != [] {
      assert matching[0] in matching;
      assert matching[0] in rules;
    } else {
      forall r | r in rules && r.kind == kind
        ensures !RestrictionApplies(r, day)
      {
        assert r !in matching;
      }
    }
  }

  lemma {:induction false} ContradictionMeaning(rules: seq<Rule>, kind: Kind, day: Day)
    ensures Choose(rules, kind, day).Contradiction? <==> Contradictory(rules, kind, day)
  {
    hide Wins, Winners, Ids;
    var winners := Winners(rules, kind, day);
    WinnersWin(rules, kind, day);
    if w :| w in winners && w.value != winners[0].value {
      assert Wins(rules, kind, day, w) && Wins(rules, kind, day, winners[0]);
    }
    if Contradictory(rules, kind, day) {
      var a, b :| Wins(rules, kind, day, a) && Wins(rules, kind, day, b) && a.value != b.value;
      assert a in winners && b in winners;
    }
  }

  /** The choice is a contradiction iff two winners disagree; otherwise it is a winner, whose value
      every winner shares, iff some rule of the kind applies. */
  lemma {:induction false} ChooseMeaning(rules: seq<Rule>, kind: Kind, day: Day)
    ensures Choose(rules, kind, day).Contradiction? <==> Contradictory(rules, kind, day)
    ensures Choose(rules, kind, day).NoRule? <==>
              forall r :: r in rules && r.kind == kind ==> !RestrictionApplies(r, day)
    ensures Choose(rules, kind, day).Winner? ==>
              && Wins(rules, kind, day, Choose(rules, kind, day).rule)
              && Decides(rules, kind, day, Choose(rules, kind, day).rule.value)
  {
    ContradictionMeaning(rules, kind, day);
    SomeRuleWins(rules, kind, day);
    WinnersWin(rules, kind, day);
    var winners := Winners(rules, kind, day);
    if winners != [] {
      assert winners[0] in winners;
    }
  }

  /** The ids reported with a winner are exactly the ids of the winning rules. */
  lemma {:induction false} WinnerIds(rules: seq<Rule>, kind: Kind, day: Day, id: string)
    requires Choose(rules, kind, day).Winner?
    ensures id in Choose(rules, kind, day).ids <==>
              exists r :: Wins(rules, kind, day, r) && r.id == id
  {
    var winners := Winners(rules, kind, day);
    var ids := Choose(rules, kind, day).ids;
    WinnersWin(rules, kind, day);
    if r :| Wins(rules, kind, day, r) && r.id == id {
      var k :| 0 <= k < |winners| && winners[k] == r;
      assert ids[k] == id;
    }
    if id in ids {
      var k :| 0 <= k < |ids| && ids[k] == id;
      assert Wins(rules, kind, day, winners[k]);
    }
  }

  /** Days on which the same rules of a kind apply get the same choice. */
  lemma {:induction false} ChooseCongruent(rules: seq<Rule>, kind: Kind, day: Day, other: Day)
    requires forall r :: r in rules && r.kind == kind
               ==> RestrictionApplies(r, day) == RestrictionApplies(r, other)
    ensures Choose(rules, kind, day) == Choose(rules, kind, other)
  {
    FilterCongruent(rules, Matches(kind, day), Matches(kind, other));
  }

  // ---------------------------------------------------------------- evaluating a stay

  datatype Error =
    | PriorityConflict(kind: Kind, day: Day, ids: seq<string>)
    | ArrivalClosed(id: string)
    | DepartureClosed(id: string)
    | AdvanceTooShort(id: string, days: int)
    | SalesClosed(id: string, day: Day)

  /** Keys of the `applied` map in insertion order. */
  function Record(applied: seq<string>, ids: seq<string>): (r: seq<string>)
    ensures forall i :: i in r <==> i in applied || i in ids
    ensures (forall i :: i in ids ==> i in applied) ==> r == applied
    decreases ids
  {
    if ids == [] then applied
    else Record(if ids[0] in applied then applied else applied + [ids[0]], ids[1..])
  }

  /** Outcome of walking a list of nights for stop-sell: contradictions met, the closing night
      that ended the walk, and the rule ids applied so far. */
  datatype Walk = Walk(conflicts: seq<Error>, stop: Option<Error>, applied: seq<string>)

  /** The evaluator's `choose` closure over the rules. */
  type Chooser = (Kind, Day) -> Choice

  function ChooserOf(rules: seq<Rule>): Chooser {
    (kind: Kind, day: Day) => Choose(rules, kind, day)
  }

  predicate Closes(choice: Choice) {
    choice.Winner? && choice.rule.value == 1
  }

  function RecordChoice(applied: seq<string>, choice: Choice): seq<string> {
    if choice.Winner? then Record(applied, choice.ids) else applied
  }

  function WalkNights(choose: Chooser, days: seq<Day>, applied: seq<string>): Walk {
    if days == [] then Walk([], None, applied)
    else
      var here := choose(StopSell, days[0]);
      var recorded := RecordChoice(applied, here);
      if Closes(here) then Walk([], Some(SalesClosed(here.rule.id, days[0])), recorded)
      else
        var rest := WalkNights(choose, days[1..], recorded);
        if here.Contradiction?
        then rest.(conflicts := [PriorityConflict(StopSell, days[0], here.ids)] + rest.conflicts)
        else rest
  }

  ghost predicate AddsBoundary(rule: Rule, startsOn: Day, endsOn: Day, b: Day) {
    && rule.kind == StopSell
    && (|| (startsOn < rule.startsOn < endsOn && b == rule.startsOn)
        || (rule.endsOn.Some? && startsOn <= rule.endsOn.value < endsOn && b == rule.endsOn.value + 1))
  }

  /** Schedule boundaries inside the stay: its first night and every day a stop-sell rule starts or
      has just ended. */
  ghost predicate IsBoundary(rules: seq<Rule>, startsOn: Day, endsOn: Day, b: Day) {
    b == startsOn || exists r :: r in rules && AddsBoundary(r, startsOn, endsOn, b)
  }

  /** The nights within a week of a boundary. */
  ghost function SampleSet(rules: seq<Rule>, startsOn: Day, endsOn: Day): iset<Day> {
    iset d: Day | Sampled(rules, startsOn, endsOn, d)
  }

  ghost predicate Sampled(rules: seq<Rule>, startsOn: Day, endsOn: Day, day: Day) {
    day < endsOn && exists b :: IsBoundary(rules, startsOn, endsOn, b) && b <= day < b + 7
  }

  /** The last boundary on or before a night. */
  ghost function LastBoundary(rules: seq<Rule>, startsOn: Day, endsOn: Day, day: Day): (b: Day)
    requires startsOn <= day
    ensures IsBoundary(rules, startsOn, endsOn, b)
    ensures startsOn <= b <= day
    ensures forall x :: b < x <= day ==> !IsBoundary(rules, startsOn, endsOn, x)
    decreases day - startsOn
  {
    if IsBoundary(rules, startsOn, endsOn, day) then day
    else LastBoundary(rules, startsOn, endsOn, day - 1)
  }

  /** The sampled night that stands for `day`: same weekday, in the week after the last boundary. */
  ghost function Representative(rules: seq<Rule>, startsOn: Day, endsOn: Day, day: Day): (d: Day)
    requires startsOn <= day < endsOn
    ensures startsOn <= d <= day
    ensures d in SampleSet(rules, startsOn, endsOn)
    ensures day in SampleSet(rules, startsOn, endsOn) || d < day
  {
    var b := LastBoundary(rules, startsOn, endsOn, day);
    b + (day - b) % 7
  }

  /** The heart of the sampling: nothing changes between a night and its representative. */
  lemma {:induction false} RepresentativeChoice(rules: seq<Rule>, startsOn: Day, endsOn: Day, day: Day)
    requires startsOn <= day < endsOn
    ensures Choose(rules, StopSell, Representative(rules, startsOn, endsOn, day))
         == Choose(rules, StopSell, day)
  {
    var b := LastBoundary(rules, startsOn, endsOn, day);
    var d := Representative(rules, startsOn, endsOn, day);
    WeekdayRepeats(d, (day - b) / 7);
    forall r | r in rules && r.kind == StopSell
      ensures RestrictionApplies(r, d) == RestrictionApplies(r, day)
    {
      if startsOn < r.startsOn < endsOn {
        assert AddsBoundary(r, startsOn, endsOn, r.startsOn);
        assert IsBoundary(rules, startsOn, endsOn, r.startsOn);
      }
      if r.endsOn.Some? && startsOn <= r.endsOn.value < endsOn {
        assert AddsBoundary(r, startsOn, endsOn, r.endsOn.value + 1);
        assert IsBoundary(rules, startsOn, endsOn, r.endsOn.value + 1);
      }
    }
    ChooseCongruent(rules, StopSell, d, day);
  }

  // A night is skipped only when an earlier night of the stay gets the same choice, so whatever the
  // skipped night would report or record has been reported or recorded already.

  /** Nights already walked past: none of them closes the stay and their winners are recorded. */
  ghost predicate Passed(choose: Chooser, from: Day, to: Day, applied: seq<string>) {
    forall x :: from <= x < to ==>
      && !Closes(choose(StopSell, x))
      && (choose(StopSell, x).Winner? ==> forall i :: i in choose(StopSell, x).ids ==> i in applied)
  }

  ghost predicate NoContradiction(choose: Chooser, from: Day, to: Day) {
    forall x :: from <= x < to ==> !choose(StopSell, x).Contradiction?
  }

  /** Every night of the stay that is not visited repeats an earlier one. */
  ghost predicate RepeatsEarlier(choose: Chooser, startsOn: Day, endsOn: Day, visited: iset<Day>) {
    forall x :: startsOn <= x < endsOn && x !in visited ==>
      exists d :: startsOn <= d < x && choose(StopSell, d) == choose(StopSell, x)
  }

  ghost predicate Increasing(days: seq<Day>) {
    forall i, j :: 0 <= i < j < |days| ==> days[i] < days[j]
  }

  /** `days` lists the visited nights from `from` on, in order. */
  ghost predicate Lists(days: seq<Day>, visited: iset<Day>, from: Day) {
    && Increasing(days)
    && (forall d :: d in days <==> from <= d && d in visited)
  }

  /** How a walk of some nights relates to the walk of every night; `clean` says no contradiction came before. */
  ghost predicate Refines(some: Walk, every: Walk, clean: bool) {
    && some.stop == every.stop
    && some.applied == every.applied
    && (forall c :: c in some.conflicts ==> c in every.conflicts)
    && (clean && every.conflicts != [] ==> some.conflicts != [] && some.conflicts[0] == every.conflicts[0])
  }

  lemma {:induction false} ListsTail(days: seq<Day>, visited: iset<Day>, from: Day)
    requires from in visited && Lists(days, visited, from)
    ensures days != [] && days[0] == from
    ensures Lists(days[1..], visited, from + 1)
  {
    assert from in days;
    assert days[0] in days;
    var rest := days[1..];
    forall d
      ensures d in rest <==> from + 1 <= d && d in visited
    {
      assert d in days <==> d == from || d in rest;
      if d in rest {
        var k :| 0 <= k < |rest| && rest[k] == d;
        assert days[0] < days[k + 1];
      }
    }
  }

  /** Walking only the visited nights gives the same closing night, the same applied rules in the
      same order, and meets a contradiction first on the same night as walking every night. */
  lemma {:induction false} VisitedWalkRefines(
    choose: Chooser, startsOn: Day, endsOn: Day, visited: iset<Day>,
    from: Day, days: seq<Day>, applied: seq<string>)
    requires startsOn <= from
    requires RepeatsEarlier(choose, startsOn, endsOn, visited)
    requires Lists(days, visited, from) && forall d :: d in visited ==> d < endsOn
    requires Passed(choose, startsOn, from, applied)
    ensures Refines(WalkNights(choose, days, applied), WalkNights(choose, Nights(from, endsOn), applied),
                    NoContradiction(choose, startsOn, from))
    decreases endsOn - from
  {
    if days != [] {
      assert days[0] in days;
    }
    if from < endsOn {
      assert Nights(from, endsOn)[1..] == Nights(from + 1, endsOn);
      var here := choose(StopSell, from);
      if from in visited {
        ListsTail(days, visited, from);
        if !Closes(here) {
          VisitedWalkRefines(choose, startsOn, endsOn, visited, from + 1, days[1..], RecordChoice(applied, here));
        }
      } else {
        var d :| startsOn <= d < from && choose(StopSell, d) == here;
        assert RecordChoice(applied, here) == applied;
        VisitedWalkRefines(choose, startsOn, endsOn, visited, from + 1, days, applied);
      }
    }
  }

  /** The last boundary before a skipped night starts a week that repeats it. */
  lemma {:induction false} SamplingRepeats(rules: seq<Rule>, startsOn: Day, endsOn: Day)
    ensures RepeatsEarlier(ChooserOf(rules), startsOn, endsOn, SampleSet(rules, startsOn, endsOn))
  {
    var visited := SampleSet(rules, startsOn, endsOn);
    forall x | startsOn <= x < endsOn && x !in visited
      ensures exists d :: startsOn <= d < x && ChooserOf(rules)(StopSell, d) == ChooserOf(rules)(StopSell, x)
    {
      var d := Representative(rules, startsOn, endsOn, x);
      RepresentativeChoice(rules, startsOn, endsOn, x);
      assert ChooserOf(rules)(StopSell, d) == ChooserOf(rules)(StopSell, x);
    }
  }

  // ---------------------------------------------------------------- the evaluator

  datatype Evaluation = Evaluation(
    errors: seq<Error>,
    minimumStay: Option<int>,
    maximumStay: Option<int>,
    applied: seq<string>)

  function ValueOf(choice: Choice): Option<int> {
    if choice.Winner? then Some(choice.rule.value) else None
  }

  function ConflictOf(kind: Kind, day: Day, choice: Choice): seq<Error> {
    if choice.Contradiction? then [PriorityConflict(kind, day, choice.ids)] else []
  }

  /** Errors found before the stop-sell walk, in the order they are reported. */
  function HeadErrors(choose: Chooser, startsOn: Day, endsOn: Day, today: Day): seq<Error> {
    var arrival := choose(ClosedToArrival, startsOn);
    var departure := choose(ClosedToDeparture, endsOn);
    var advance := choose(MinimumAdvance, startsOn);
    ConflictOf(MinimumStay, startsOn, choose(MinimumStay, startsOn))
    + ConflictOf(MaximumStay, startsOn, choose(MaximumStay, startsOn))
    + ConflictOf(ClosedToArrival, startsOn, arrival)
    + ConflictOf(ClosedToDeparture, endsOn, departure)
    + ConflictOf(MinimumAdvance, startsOn, advance)
    + (if Closes(arrival) then [ArrivalClosed(arrival.rule.id)] else [])
    + (if Closes(departure) then [DepartureClosed(departure.rule.id)] else [])
    + (if advance.Winner? && startsOn - today < advance.rule.value
       then [AdvanceTooShort(advance.rule.id, advance.rule.value)] else [])
  }

  function HeadApplied(choose: Chooser, startsOn: Day, endsOn: Day): seq<string> {
    var min := RecordChoice([], choose(MinimumStay, startsOn));
    var max := RecordChoice(min, choose(MaximumStay, startsOn));
    var arrival := RecordChoice(max, choose(ClosedToArrival, startsOn));
    var departure := RecordChoice(arrival, choose(ClosedToDeparture, endsOn));
    RecordChoice(departure, choose(MinimumAdvance, startsOn))
  }

  /** The reference for the stop-sell part: every night of the stay is walked. */
  ghost function EveryNight(choose: Chooser, startsOn: Day, endsOn: Day): Walk {
    WalkNights(choose, Nights(startsOn, endsOn), HeadApplied(choose, startsOn, endsOn))
  }

  function StopError(walk: Walk): seq<Error> {
    if walk.stop.Some? then [walk.stop.value] else []
  }

  /** The outcome, from the choices of the first and last day and a walk that refines the walk of
      every night. */
  ghost predicate EvaluatesTo(
    choose: Chooser, startsOn: Day, endsOn: Day, today: Day, walk: Walk, r: Evaluation)
  {
    && r.minimumStay == ValueOf(choose(MinimumStay, startsOn))
    && r.maximumStay == ValueOf(choose(MaximumStay, startsOn))
    && r.errors == HeadErrors(choose, startsOn, endsOn, today) + walk.conflicts + StopError(walk)
    && r.applied == walk.applied
    && Refines(walk, EveryNight(choose, startsOn, endsOn), true)
  }

  function InsertDay(days: seq<Day>, day: Day): (r: seq<Day>)
    ensures forall d :: d in r <==> d == day || d in days
    ensures Increasing(days) && day !in days ==> Increasing(r)
  {
    if days == [] || day < days[0] then [day] + days
    else
      var rest := InsertDay(days[1..], day);
      assert Increasing(days) && day !in days ==> forall k :: 0 <= k < |rest| ==> rest[k] in rest && days[0] < rest[k];
      [days[0]] + rest
  }

  method SortDays(dates: set<Day>) returns (days: seq<Day>)
    ensures forall d :: d in days <==> d in dates
    ensures Increasing(days)
  {
    days := [];
    var rest := dates;
    while rest != {}
      invariant rest <= dates
      invariant forall d :: d in days <==> d in dates - rest
      invariant Increasing(days)
      decreases rest
    {
      var d := Pick(rest);
      days := InsertDay(days, d);
      rest := rest - {d};
    }
  }

  method EvaluateRestrictions(rules: seq<Rule>, startsOn: Day, endsOn: Day, today: Day)
    returns (r: Evaluation, tested: nat)
    ensures exists walk: Walk :: EvaluatesTo(ChooserOf(rules), startsOn, endsOn, today, walk, r)
    ensures exists days: seq<Day> :: TestedNights(rules, startsOn, endsOn, days, tested)
    ensures tested <= 7 * (1 + 2 * |Filter(rules, IsStopSell())|)
  {
    hide Lists, EvaluatesTo, SampleSet, WalkNights, DaysWalked, HeadErrors, HeadApplied;
    var choose := ChooserOf(rules);
    var min, max, errors, applied := EvaluateHead(choose, startsOn, endsOn, today);
    var days := SampledDays(rules, startsOn, endsOn);
    var conflicts, stop;
    conflicts, stop, applied, tested := WalkSample(choose, days, applied);
    ghost var walk := Walk(conflicts, stop, applied);
    r := Evaluation(errors + conflicts + (if stop.Some? then [stop.value] else []), min, max, applied);
    SampleRefines(rules, startsOn, endsOn, today, days, walk, r);
    assert TestedNights(rules, startsOn, endsOn, days, tested);
  }

  /** Walking the sample gives the outcome that is stated over every night. */
  lemma {:induction false} SampleRefines(rules: seq<Rule>, startsOn: Day, endsOn: Day, today: Day, days: seq<Day>,
      walk: Walk, r: Evaluation)
    requires Lists(days, SampleSet(rules, startsOn, endsOn), startsOn)
    requires walk == WalkNights(ChooserOf(rules), days, HeadApplied(ChooserOf(rules), startsOn, endsOn))
    requires r.minimumStay == ValueOf(ChooserOf(rules)(MinimumStay, startsOn))
    requires r.maximumStay == ValueOf(ChooserOf(rules)(MaximumStay, startsOn))
    requires r.errors == HeadErrors(ChooserOf(rules), startsOn, endsOn, today) + walk.conflicts + StopError(walk)
    requires r.applied == walk.applied
    ensures EvaluatesTo(ChooserOf(rules), startsOn, endsOn, today, walk, r)
  {
    hide HeadErrors, HeadApplied, WalkNights, Refines, ValueOf, Lists;
    SamplingRepeats(rules, startsOn, endsOn);
    VisitedWalkRefines(ChooserOf(rules), startsOn, endsOn, SampleSet(rules, startsOn, endsOn), startsOn, days,
                       HeadApplied(ChooserOf(rules), startsOn, endsOn));
    assert NoContradiction(ChooserOf(rules), startsOn, startsOn);
  }

  /** The choices of the arrival and departure days. */
  method EvaluateHead(choose: Chooser, startsOn: Day, endsOn: Day, today: Day)
    returns (minimumStay: Option<int>, maximumStay: Option<int>, errors: seq<Error>, applied: seq<string>)
    ensures minimumStay == ValueOf(choose(MinimumStay, startsOn))
    ensures maximumStay == ValueOf(choose(MaximumStay, startsOn))
    ensures errors == HeadErrors(choose, startsOn, endsOn, today)
    ensures applied == HeadApplied(choose, startsOn, endsOn)
  {
    hide RecordChoice, ConflictOf;
    var min := choose(MinimumStay, startsOn);
    errors, applied := ConflictOf(MinimumStay, startsOn, min), RecordChoice([], min);
    var max := choose(MaximumStay, startsOn);
    errors, applied := errors + ConflictOf(MaximumStay, startsOn, max), RecordChoice(applied, max);
    var arrival := choose(ClosedToArrival, startsOn);
    errors, applied := errors + ConflictOf(ClosedToArrival, startsOn, arrival), RecordChoice(applied, arrival);
    var departure := choose(ClosedToDeparture, endsOn);
    errors, applied := errors + ConflictOf(ClosedToDeparture, endsOn, departure), RecordChoice(applied, departure);
    var advance := choose(MinimumAdvance, startsOn);
    errors, applied := errors + ConflictOf(MinimumAdvance, startsOn, advance), RecordChoice(applied, advance);
    if Closes(arrival) {
      errors := errors + [ArrivalClosed(arrival.rule.id)];
    }
    if Closes(departure) {
      errors := errors + [DepartureClosed(departure.rule.id)];
    }
    if advance.Winner? && startsOn - today < advance.rule.value {
      errors := errors + [AdvanceTooShort(advance.rule.id, advance.rule.value)];
    }
    minimumStay, maximumStay := ValueOf(min), ValueOf(max);
  }

  /** How many days of a list the stop-sell loop tests: all up to and including the first that closes. */
  function DaysWalked(choose: Chooser, days: seq<Day>): (n: nat)
    ensures n <= |days|
    ensures forall i :: 0 <= i < n - 1 ==> !Closes(choose(StopSell, days[i]))
    ensures n < |days| ==> n > 0 && Closes(choose(StopSell, days[n - 1]))
  {
    if days == [] then 0
    else if Closes(choose(StopSell, days[0])) then 1
    else 1 + DaysWalked(choose, days[1..])
  }

  /** `tested` counts the sampled nights up to and including the first that closes, or all of them. */
  ghost predicate TestedNights(rules: seq<Rule>, startsOn: Day, endsOn: Day, days: seq<Day>, tested: nat) {
    && Lists(days, SampleSet(rules, startsOn, endsOn), startsOn)
    && tested == DaysWalked(ChooserOf(rules), days)
  }

  /** One more day of a walk. */
  lemma {:induction false} WalkOneMore(choose: Chooser, days: seq<Day>, i: nat, applied: seq<string>,
      all: Walk, met: seq<Error>)
    requires i < |days| && PrefixOf(all, met, WalkNights(choose, days[i..], applied))
    ensures var choice := choose(StopSell, days[i]);
      var metNow, recorded := met + ConflictOf(StopSell, days[i], choice), RecordChoice(applied, choice);
      if Closes(choice) then all == Walk(met, Some(SalesClosed(choice.rule.id, days[i])), recorded) && metNow == met
      else PrefixOf(all, metNow, WalkNights(choose, days[i + 1..], recorded))
  {
    hide Record;
    assert days[i..][0] == days[i] && days[i..][1..] == days[i + 1..];
    var choice := choose(StopSell, days[i]);
    var rest := WalkNights(choose, days[i + 1..], RecordChoice(applied, choice));
    if choice.Contradiction? {
      assert met + ([PriorityConflict(StopSell, days[i], choice.ids)] + rest.conflicts)
          == met + [PriorityConflict(StopSell, days[i], choice.ids)] + rest.conflicts;
    } else {
      assert met + [] == met;
    }
  }

  /** The stop-sell loop: it ends at the first closing night of the sample, having walked `walked` of them. */
  method WalkSample(choose: Chooser, days: seq<Day>, appliedBefore: seq<string>)
    returns (conflicts: seq<Error>, stop: Option<Error>, applied: seq<string>, walked: nat)
    ensures Walk(conflicts, stop, applied) == WalkNights(choose, days, appliedBefore)
    ensures walked == DaysWalked(choose, days)
  {
    hide Record, RecordChoice, ConflictOf;
    ghost var all := WalkNights(choose, days, appliedBefore);
    conflicts, stop, applied, walked := [], None, appliedBefore, 0;
    assert days[0..] == days && [] + all.conflicts == all.conflicts;
    for i := 0 to |days|
      invariant stop == None && walked == i
      invariant DaysWalked(choose, days) == i + DaysWalked(choose, days[i..])
      invariant PrefixOf(all, conflicts, WalkNights(choose, days[i..], applied))
    {
      var day := days[i];
      WalkOneMore(choose, days, i, applied, all, conflicts);
      assert days[i..][0] == day && days[i..][1..] == days[i + 1..];
      var choice := choose(StopSell, day);
      walked := walked + 1;
      conflicts, applied := conflicts + ConflictOf(StopSell, day, choice), RecordChoice(applied, choice);
      if Closes(choice) {
        stop := Some(SalesClosed(choice.rule.id, day));
        return;
      }
    }
  }

  /** `all` is the walk that met `met` and then continued as `rest`. */
  ghost predicate PrefixOf(all: Walk, met: seq<Error>, rest: Walk) {
    all == rest.(conflicts := met + rest.conflicts)
  }

  function IsStopSell(): Rule -> bool {
    (rule: Rule) => rule.kind == StopSell
  }

  lemma {:induction false} NoBoundaries(startsOn: Day, endsOn: Day)
    ensures forall b :: IsBoundary([], startsOn, endsOn, b) <==> b == startsOn
  {
  }

  lemma {:induction false} BoundariesGrow(rules: seq<Rule>, k: nat, startsOn: Day, endsOn: Day)
    requires k < |rules|
    ensures forall b :: IsBoundary(rules[..k + 1], startsOn, endsOn, b)
                        <==> IsBoundary(rules[..k], startsOn, endsOn, b) || AddsBoundary(rules[k], startsOn, endsOn, b)
  {
    hide AddsBoundary;
    assert rules[..k + 1] == rules[..k] + [rules[k]];
    forall b
      ensures IsBoundary(rules[..k + 1], startsOn, endsOn, b)
              <==> IsBoundary(rules[..k], startsOn, endsOn, b) || AddsBoundary(rules[k], startsOn, endsOn, b)
    {
      if AddsBoundary(rules[k], startsOn, endsOn, b) {
        assert rules[k] in rules[..k + 1];
      }
      if IsBoundary(rules[..k], startsOn, endsOn, b) && b != startsOn {
        var r :| r in rules[..k] && AddsBoundary(r, startsOn, endsOn, b);
        assert r in rules[..k + 1];
      }
    }
  }

  method BoundariesOf(stopSell: seq<Rule>, startsOn: Day, endsOn: Day) returns (boundaries: set<Day>)
    requires forall r :: r in stopSell ==> r.kind == StopSell
    ensures forall b :: b in boundaries <==> IsBoundary(stopSell, startsOn, endsOn, b)
    ensures |boundaries| <= 1 + 2 * |stopSell|
  {
    hide IsBoundary;
    boundaries := {startsOn};
    NoBoundaries(startsOn, endsOn);
    assert stopSell[..0] == [];
    for k := 0 to |stopSell|
      invariant forall b :: b in boundaries <==> IsBoundary(stopSell[..k], startsOn, endsOn, b)
      invariant |boundaries| <= 1 + 2 * k
    {
      var rule := stopSell[k];
      assert rule in stopSell;
      BoundariesGrow(stopSell, k, startsOn, endsOn);
      if startsOn < rule.startsOn < endsOn {
        boundaries := boundaries + {rule.startsOn};
      }
      if rule.endsOn.Some? && startsOn <= rule.endsOn.value < endsOn {
        boundaries := boundaries + {rule.endsOn.value + 1};
      }
    }
    assert stopSell[..|stopSell|] == stopSell;
  }

  ghost predicate WithinAWeek(boundaries: set<Day>, day: Day) {
    exists b :: b in boundaries && b <= day < b + 7
  }

  method WeeksFrom(boundaries: set<Day>, endsOn: Day) returns (dates: set<Day>)
    ensures forall d :: d in dates <==> d < endsOn && WithinAWeek(boundaries, d)
    ensures |dates| <= 7 * |boundaries|
  {
    dates := {};
    var done: set<Day> := {};
    while done != boundaries
      invariant done <= boundaries
      invariant |dates| <= 7 * |done|
      invariant forall d :: d in dates <==> d < endsOn && WithinAWeek(done, d)
      decreases boundaries - done
    {
      var boundary := Pick(boundaries - done);
      for i := 0 to 7
        invariant |dates| <= 7 * |done| + i
        invariant forall d :: d in dates <==>
                    d < endsOn && (WithinAWeek(done, d) || boundary <= d < boundary + i)
      {
        var day := boundary + i;
        if day < endsOn {
          dates := dates + {day};
        }
      }
      done := done + {boundary};
      assert forall d :: WithinAWeek(done, d) <==> WithinAWeek(done - {boundary}, d) || boundary <= d < boundary + 7;
    }
  }

  /** The sorted sample: boundaries in the stay, each with a full weekday cycle. */
  method SampledDays(rules: seq<Rule>, startsOn: Day, endsOn: Day) returns (days: seq<Day>)
    ensures Lists(days, SampleSet(rules, startsOn, endsOn), startsOn)
    ensures |days| <= 7 * (1 + 2 * |Filter(rules, IsStopSell())|)
  {
    var stopSell := Filter(rules, IsStopSell());
    var boundaries := BoundariesOf(stopSell, startsOn, endsOn);
    var dates := WeeksFrom(boundaries, endsOn);
    days := SortDays(dates);
    StrictlyIncreasingSize(days, dates);
    assert forall b :: IsBoundary(stopSell, startsOn, endsOn, b) == IsBoundary(rules, startsOn, endsOn, b);
    assert forall d :: WithinAWeek(boundaries, d) && d < endsOn <==> Sampled(rules, startsOn, endsOn, d);
  }

  lemma {:induction false} StrictlyIncreasingSize(days: seq<Day>, dates: set<Day>)
    requires Increasing(days)
    requires forall d :: d in days ==> d in dates
    ensures |days| <= |dates|
  {
    if days != [] {
      assert days[0] in days;
      forall d | d in days[1..]
        ensures d in dates - {days[0]}
      {
      }
      StrictlyIncreasingSize(days[1..], dates - {days[0]});
    }
  }

  // ---------------------------------------------------------------- what an accepted stay means

  /** Walking every night ends at the first closing night and reports every earlier contradiction. */
  lemma {:induction false} EveryNightMeaning(choose: Chooser, startsOn: Day, endsOn: Day, applied: seq<string>)
    ensures var walk := WalkNights(choose, Nights(startsOn, endsOn), applied);
            && (walk.stop.None? <==> forall d :: startsOn <= d < endsOn ==> !Closes(choose(StopSell, d)))
            && (walk.stop.Some? ==>
                  && walk.stop.value.SalesClosed?
                  && var night := walk.stop.value.day;
                  && startsOn <= night < endsOn
                  && Closes(choose(StopSell, night))
                  && walk.stop.value.id == choose(StopSell, night).rule.id
                  && forall d :: startsOn <= d < night ==> !Closes(choose(StopSell, d)))
            && (walk.stop.None? ==> (walk.conflicts == [] <==> NoContradiction(choose, startsOn, endsOn)))
            && (walk.stop.Some? ==> (walk.conflicts == [] <==> NoContradiction(choose, startsOn, walk.stop.value.day)))
    decreases endsOn - startsOn
  {
    if startsOn < endsOn {
      assert Nights(startsOn, endsOn)[1..] == Nights(startsOn + 1, endsOn);
      EveryNightMeaning(choose, startsOn + 1, endsOn, RecordChoice(applied, choose(StopSell, startsOn)));
    }
  }

  /** The stop-sell verdict on a stay, over every night: the earliest closing night is named, and an
      earlier contradiction is reported iff there is one. */
  lemma {:induction false} StopSellVerdict(choose: Chooser, startsOn: Day, endsOn: Day, today: Day, walk: Walk,
      r: Evaluation)
    requires EvaluatesTo(choose, startsOn, endsOn, today, walk, r)
    ensures walk.stop.None? <==> forall d :: startsOn <= d < endsOn ==> !Closes(choose(StopSell, d))
    ensures walk.stop.Some? ==>
              && walk.stop.value.SalesClosed?
              && startsOn <= walk.stop.value.day < endsOn
              && Closes(choose(StopSell, walk.stop.value.day))
              && walk.stop.value.id == choose(StopSell, walk.stop.value.day).rule.id
              && forall d :: startsOn <= d < walk.stop.value.day ==> !Closes(choose(StopSell, d))
    ensures var to := if walk.stop.Some? then walk.stop.value.day else endsOn;
            walk.conflicts == [] <==> NoContradiction(choose, startsOn, to)
  {
    EveryNightMeaning(choose, startsOn, endsOn, HeadApplied(choose, startsOn, endsOn));
    var every := EveryNight(choose, startsOn, endsOn);
    if walk.conflicts != [] {
      assert walk.conflicts[0] in every.conflicts;
    }
  }

  ghost predicate Clear(rules: seq<Rule>, kind: Kind, day: Day) {
    !Contradictory(rules, kind, day)
  }

  /** The stay breaks no restriction, stated over the rules and every night of the stay. */
  ghost predicate Unrestricted(rules: seq<Rule>, startsOn: Day, endsOn: Day, today: Day) {
    && Clear(rules, MinimumStay, startsOn) && Clear(rules, MaximumStay, startsOn)
    && Clear(rules, ClosedToArrival, startsOn) && !Decides(rules, ClosedToArrival, startsOn, 1)
    && Clear(rules, ClosedToDeparture, endsOn) && !Decides(rules, ClosedToDeparture, endsOn, 1)
    && Clear(rules, MinimumAdvance, startsOn)
    && (forall days :: Decides(rules, MinimumAdvance, startsOn, days) ==> startsOn - today >= days)
    && (forall d :: startsOn <= d < endsOn ==>
          Clear(rules, StopSell, d) && !Decides(rules, StopSell, d, 1))
  }

  /** The choice function and the declarative notions agree. */
  lemma {:induction false} ChoiceFacts(rules: seq<Rule>, kind: Kind, day: Day)
    ensures Clear(rules, kind, day) == !ChooserOf(rules)(kind, day).Contradiction?
    ensures forall v :: Decides(rules, kind, day, v) ==>
              ChooserOf(rules)(kind, day).Winner? && ChooserOf(rules)(kind, day).rule.value == v
    ensures ChooserOf(rules)(kind, day).Winner? ==>
              Decides(rules, kind, day, ChooserOf(rules)(kind, day).rule.value)
  {
    ChooseMeaning(rules, kind, day);
  }

  /** The sampled evaluator reports nothing iff no night of the stay, sampled or not, is restricted. */
  lemma {:induction false} AcceptsUnrestricted(
    rules: seq<Rule>, startsOn: Day, endsOn: Day, today: Day, walk: Walk, r: Evaluation)
    requires EvaluatesTo(ChooserOf(rules), startsOn, endsOn, today, walk, r)
    ensures r.errors == [] <==> Unrestricted(rules, startsOn, endsOn, today)
  {
    var choose := ChooserOf(rules);
    StopSellVerdict(choose, startsOn, endsOn, today, walk, r);
    forall d | startsOn <= d < endsOn
      ensures Clear(rules, StopSell, d) == !choose(StopSell, d).Contradiction?
      ensures Decides(rules, StopSell, d, 1) == Closes(choose(StopSell, d))
    {
      ChoiceFacts(rules, StopSell, d);
    }
    ChoiceFacts(rules, MinimumStay, startsOn);
    ChoiceFacts(rules, MaximumStay, startsOn);
    ChoiceFacts(rules, ClosedToArrival, startsOn);
    ChoiceFacts(rules, ClosedToDeparture, endsOn);
    ChoiceFacts(rules, MinimumAdvance, startsOn);
    HeadErrorsMeaning(choose, startsOn, endsOn, today);
  }

  lemma {:induction false} HeadErrorsMeaning(choose: Chooser, startsOn: Day, endsOn: Day, today: Day)
    ensures HeadErrors(choose, startsOn, endsOn, today) == [] <==>
              && !choose(MinimumStay, startsOn).Contradiction?
              && !choose(MaximumStay, startsOn).Contradiction?
              && !choose(ClosedToArrival, startsOn).Contradiction? && !Closes(choose(ClosedToArrival, startsOn))
              && !choose(ClosedToDeparture, endsOn).Contradiction? && !Closes(choose(ClosedToDeparture, endsOn))
              && !choose(MinimumAdvance, startsOn).Contradiction?
              && !(choose(MinimumAdvance, startsOn).Winner?
                   && startsOn - today < choose(MinimumAdvance, startsOn).rule.value)
  {
  }
}
