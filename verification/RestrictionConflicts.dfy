/** The check that blocks activating a restriction that could contradict another one, and why a
    hotel whose rules all passed it never meets a contradiction when a stay is evaluated. */
module RestrictionConflicts {
  import opened Collections
  import opened Calendar
  import opened Restrictions

  datatype TypeRef = TypeRef(id: string, categoryId: Option<string>)
  datatype Conflict = Conflict(id: string, name: string, date: Day)

  predicate RestrictionScopesOverlap(a: Rule, b: Rule, types: seq<TypeRef>) {
    if a.scope == Property || b.scope == Property then true
    else if a.scope == b.scope then exists id :: id in a.targetIds && id in b.targetIds
    else
      var category := if a.scope == Category then a else b;
      var roomType := if a.scope == RoomType then a else b;
      exists item :: item in types
        && item.id in roomType.targetIds
        && item.categoryId.Some?
        && item.categoryId.value in category.targetIds
  }

  /** The rules loaded for a room type: its own, its category's and the property's. */
  predicate ScopeMatches(rule: Rule, roomType: TypeRef) {
    match rule.scope
    case Property => true
    case RoomType => roomType.id in rule.targetIds
    case Category => roomType.categoryId.Some? && roomType.categoryId.value in rule.targetIds
  }

  /** The tests made before any date is looked at. */
  predicate Comparable(candidate: Rule, other: Rule, types: seq<TypeRef>) {
    && candidate.id != other.id
    && candidate.kind == other.kind
    && candidate.priority == other.priority
    && candidate.value != other.value
    && Live(other)
    && RestrictionScopesOverlap(candidate, other, types)
  }

  ghost predicate Clash(candidate: Rule, other: Rule, types: seq<TypeRef>, day: Day) {
    Comparable(candidate, other, types) && Covers(candidate, day) && Covers(other, day)
  }

  ghost predicate FirstClash(candidate: Rule, other: Rule, types: seq<TypeRef>, today: Day, day: Day) {
    && today <= day
    && Clash(candidate, other, types, day)
    && forall d :: today <= d < day ==> !Clash(candidate, other, types, d)
  }

  /** The report for one pair: the first day from today on, however distant, on which they contradict. */
  ghost function Report(candidate: Rule, other: Rule, types: seq<TypeRef>, today: Day): Option<Conflict> {
    if day :| FirstClash(candidate, other, types, today, day)
    then Some(Conflict(other.id, other.name, day))
    else None
  }

  ghost function Reports(candidate: Rule, existing: seq<Rule>, types: seq<TypeRef>, today: Day): seq<Conflict> {
    if existing == [] then []
    else
      var first := Report(candidate, existing[0], types, today);
      (if first.Some? then [first.value] else []) + Reports(candidate, existing[1..], types, today)
  }

  function Later(a: Day, b: Day): Day {
    if a < b then b else a
  }

  /** The day both schedules have started, and not before today. */
  function LookFrom(candidate: Rule, other: Rule, today: Day): Day {
    Later(Later(candidate.startsOn, other.startsOn), today)
  }

  function FirstEnd(a: Option<Day>, b: Option<Day>): Option<Day> {
    if a.None? then b
    else if b.None? then a
    else if b.value < a.value then b
    else a
  }

  /** Any clash repeats a clash of the first seven days. */
  lemma {:induction false} ClashWithinAWeek(candidate: Rule, other: Rule, types: seq<TypeRef>, today: Day, day: Day)
    requires today <= day && Clash(candidate, other, types, day)
    ensures LookFrom(candidate, other, today) <= day
    ensures var from := LookFrom(candidate, other, today);
            Clash(candidate, other, types, from + (day - from) % 7)
  {
    var from := LookFrom(candidate, other, today);
    WeekdayRepeats(from + (day - from) % 7, (day - from) / 7);
  }

  method FindClash(candidate: Rule, other: Rule, types: seq<TypeRef>, today: Day)
    returns (entry: Option<Conflict>)
    ensures entry == Report(candidate, other, types, today)
  {
    if !Comparable(candidate, other, types) {
      return None;
    }
    var start := LookFrom(candidate, other, today);
    var end := FirstEnd(candidate.endsOn, other.endsOn);
    for i := 0 to 7
      invariant forall d :: start <= d < start + i ==> !Clash(candidate, other, types, d)
    {
      var day := start + i;
      if end.Some? && day > end.value {
        NoneLater(candidate, other, types, today, i);
        return None;
      }
      if Weekday(day) in candidate.weekdays && Weekday(day) in other.weekdays {
        assert FirstClash(candidate, other, types, today, day);
        FirstClashUnique(candidate, other, types, today, day);
        return Some(Conflict(other.id, other.name, day));
      }
    }
    NoneLater(candidate, other, types, today, 7);
    return None;
  }

  lemma {:induction false} FirstClashUnique(candidate: Rule, other: Rule, types: seq<TypeRef>, today: Day, day: Day)
    requires FirstClash(candidate, other, types, today, day)
    ensures Report(candidate, other, types, today) == Some(Conflict(other.id, other.name, day))
  {
    assert exists d :: FirstClash(candidate, other, types, today, d);
    var d :| FirstClash(candidate, other, types, today, d);
    assert Clash(candidate, other, types, d);
    assert d == day;
  }

  /** A search that ran out of days, or of the first seven, has seen every clash there can be. */
  lemma {:induction false} NoneLater(candidate: Rule, other: Rule, types: seq<TypeRef>, today: Day, searched: nat)
    requires var from := LookFrom(candidate, other, today);
             forall d :: from <= d < from + searched ==> !Clash(candidate, other, types, d)
    requires searched >= 7 || var end := FirstEnd(candidate.endsOn, other.endsOn);
             end.Some? && LookFrom(candidate, other, today) + searched > end.value
    ensures forall d :: today <= d ==> !Clash(candidate, other, types, d)
    ensures Report(candidate, other, types, today) == None
  {
    forall d | today <= d
      ensures !Clash(candidate, other, types, d)
    {
      if Clash(candidate, other, types, d) {
        ClashWithinAWeek(candidate, other, types, today, d);
      }
    }
  }

  method RestrictionConflictsFor(candidate: Rule, existing: seq<Rule>, types: seq<TypeRef>, today: Day)
    returns (conflicts: seq<Conflict>)
    ensures conflicts == Reports(candidate, existing, types, today)
  {
    conflicts := [];
    for i := 0 to |existing|
      invariant Reports(candidate, existing, types, today)
             == conflicts + Reports(candidate, existing[i..], types, today)
    {
      assert existing[i..][1..] == existing[i + 1..];
      var entry := FindClash(candidate, existing[i], types, today);
      if entry.Some? {
        conflicts := conflicts + [entry.value];
      }
    }
  }

  /** The seven-day look-ahead is sound and complete over the unbounded calendar. */
  lemma {:induction false} LookaheadComplete(candidate: Rule, other: Rule, types: seq<TypeRef>, today: Day)
    ensures Report(candidate, other, types, today).Some? <==>
              exists d :: today <= d && Clash(candidate, other, types, d)
  {
    if d :| today <= d && Clash(candidate, other, types, d) {
      var first := EarliestClash(candidate, other, types, today, d);
      FirstClashUnique(candidate, other, types, today, first);
    }
  }

  lemma {:induction false} EarliestClash(candidate: Rule, other: Rule, types: seq<TypeRef>, today: Day, day: Day)
    returns (first: Day)
    requires today <= day && Clash(candidate, other, types, day)
    ensures FirstClash(candidate, other, types, today, first)
    decreases day - today
  {
    if earlier :| today <= earlier < day && Clash(candidate, other, types, earlier) {
      first := EarliestClash(candidate, other, types, today, earlier);
    } else {
      first := day;
    }
  }

  // ---------------------------------------------------------------- contradictions become unreachable

  /** Two rules loaded for the same room type always have overlapping scopes. */
  lemma {:induction false} SameTypeOverlaps(a: Rule, b: Rule, roomType: TypeRef, types: seq<TypeRef>)
    requires roomType in types && ScopeMatches(a, roomType) && ScopeMatches(b, roomType)
    ensures RestrictionScopesOverlap(a, b, types)
  {
  }

  /** No two live rules clash on any day from `today` on. */
  ghost predicate PairwiseClear(rules: seq<Rule>, types: seq<TypeRef>, today: Day) {
    forall a, b, d :: a in rules && b in rules && today <= d && Live(a) ==> !Clash(a, b, types, d)
  }

  ghost predicate IdsIdentify(rules: seq<Rule>) {
    forall a, b :: a in rules && b in rules && a.id == b.id ==> a == b
  }

  lemma {:induction false} ClearRulesNeverContradict(
    rules: seq<Rule>, roomType: TypeRef, types: seq<TypeRef>, today: Day, kind: Kind, day: Day)
    requires IdsIdentify(rules) && roomType in types
    requires forall r :: r in rules ==> ScopeMatches(r, roomType)
    requires PairwiseClear(rules, types, today) && today <= day
    ensures !Contradictory(rules, kind, day)
  {
    if a, b :| Wins(rules, kind, day, a) && Wins(rules, kind, day, b) && a.value != b.value {
      SameTypeOverlaps(a, b, roomType, types);
      assert Clash(a, b, types, day);
    }
  }

  /** Rules that passed the check leave the evaluator without a contradiction to report. */
  lemma {:induction false} NoConflictReported(
    rules: seq<Rule>, roomType: TypeRef, types: seq<TypeRef>, today: Day,
    startsOn: Day, endsOn: Day, walk: Walk, r: Evaluation)
    requires IdsIdentify(rules) && roomType in types
    requires forall x :: x in rules ==> ScopeMatches(x, roomType)
    requires PairwiseClear(rules, types, today) && today <= startsOn <= endsOn
    requires EvaluatesTo(ChooserOf(rules), startsOn, endsOn, today, walk, r)
    ensures forall e :: e in r.errors ==> !e.PriorityConflict?
  {
    var choose := ChooserOf(rules);
    forall kind, day | today <= day
      ensures !choose(kind, day).Contradiction?
    {
      ClearRulesNeverContradict(rules, roomType, types, today, kind, day);
      ChooseMeaning(rules, kind, day);
    }
    AgreedChoicesReportNoConflict(choose, startsOn, endsOn, today, walk, r);
  }

  lemma {:induction false} AgreedChoicesReportNoConflict(
    choose: Chooser, startsOn: Day, endsOn: Day, today: Day, walk: Walk, r: Evaluation)
    requires forall kind, day :: startsOn <= day ==> !choose(kind, day).Contradiction?
    requires startsOn <= endsOn
    requires EvaluatesTo(choose, startsOn, endsOn, today, walk, r)
    ensures forall e :: e in r.errors ==> !e.PriorityConflict?
  {
    StopSellVerdict(choose, startsOn, endsOn, today, walk, r);
    assert walk.conflicts == [];
  }

  lemma {:induction false} NothingReported(candidate: Rule, existing: seq<Rule>, types: seq<TypeRef>, today: Day)
    requires Reports(candidate, existing, types, today) == []
    ensures forall other :: other in existing ==> Report(candidate, other, types, today) == None
  {
    if existing != [] {
      NothingReported(candidate, existing[1..], types, today);
    }
  }
}
