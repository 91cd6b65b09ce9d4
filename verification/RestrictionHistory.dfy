/** The life of a hotel's restrictions: rules are created, edited, activated, paused, archived, copied and
    deleted while room types change, and when that leaves the rules free of contradictions. */
module RestrictionHistory {
  import opened Collections
  import opened Calendar
  import opened Restrictions
  import opened RestrictionConflicts

  // ---------------------------------------------------------------- one request

  /** `input` carries the fields of a request; its id and lifecycle are not read. */
  datatype Action =
    | Create(newId: string, input: Rule)
    | Edit(id: string, input: Rule)
    | Activate(id: string)
    | Pause(id: string)
    | Archive(id: string)
    | Duplicate(id: string, newId: string)
    | Delete(id: string)

  datatype Refusal =
    | NotFound | ArchivedIsReadOnly | OnlyDraftsAreDeleted | OnlyLiveIsPaused | ExpiredIsReadOnly
    | MissingTarget | ExpiredActivation | Contradicts(conflicts: seq<Conflict>) | IdTaken

  /** The hotel's room types and the ids of its categories. */
  datatype Catalog = Catalog(types: seq<TypeRef>, categories: set<string>)

  /** The lifecycle shown on a day: a schedule that is over has expired, whatever is stored. */
  function LifecycleOn(rule: Rule, today: Day): Lifecycle {
    if rule.lifecycle == Draft || rule.lifecycle == Archived then rule.lifecycle
    else if rule.endsOn.Some? && rule.endsOn.value < today then Expired
    else if rule.lifecycle == Paused then Paused
    else if rule.startsOn > today then Scheduled
    else Active
  }

  predicate Creates(action: Action) {
    action.Create? || action.Duplicate?
  }

  function HasId(id: string): Rule -> bool {
    (rule: Rule) => rule.id == id
  }

  /** The fields an edit may not change without the check. */
  predicate SameTerms(a: Rule, b: Rule) {
    && a.kind == b.kind && a.value == b.value && a.scope == b.scope && a.targetIds == b.targetIds
    && a.startsOn == b.startsOn && a.endsOn == b.endsOn && a.weekdays == b.weekdays && a.priority == b.priority
  }

  /** The row a request is about to write, from the row it names. */
  function NextRow(current: Option<Rule>, action: Action, today: Day): Rule
    requires action.Create? || current.Some?
  {
    match action
    case Create(newId, input) => input.(id := newId, lifecycle := Draft)
    case Edit(_, input) => input.(id := current.value.id, lifecycle := current.value.lifecycle)
    case Activate(_) => current.value.(lifecycle := if current.value.startsOn > today then Scheduled else Active)
    case Pause(_) => current.value.(lifecycle := Paused)
    case Archive(_) => current.value.(lifecycle := Archived)
    case Duplicate(_, newId) => current.value.(id := newId, name := CopyName(current.value.name), lifecycle := Draft)
    case Delete(_) => current.value
  }

  function CopyName(name: string): string {
    (if |name| > 190 then name[..190] else name) + " (copy)"
  }

  predicate TargetsMissing(rule: Rule, catalog: Catalog) {
    match rule.scope
    case Property => false
    case RoomType => exists id :: id in rule.targetIds && forall t :: t in catalog.types ==> t.id != id
    case Category => exists id :: id in rule.targetIds && id !in catalog.categories
  }

  /** Refusals that depend on the row's lifecycle. */
  function LifecycleRefusal(lifecycle: Lifecycle, action: Action): Option<Refusal> {
    if lifecycle == Archived && !action.Duplicate? then Some(ArchivedIsReadOnly)
    else if action.Delete? && lifecycle != Draft then Some(OnlyDraftsAreDeleted)
    else if action.Pause? && lifecycle != Active && lifecycle != Scheduled then Some(OnlyLiveIsPaused)
    else if action.Edit? && lifecycle == Expired then Some(ExpiredIsReadOnly)
    else None
  }

  predicate ChangesTerms(current: Option<Rule>, action: Action, next: Rule) {
    action.Edit? && current.Some? && !SameTerms(next, current.value)
  }

  /** The check runs when a rule goes live or the terms of a live rule change. */
  predicate Checked(current: Option<Rule>, action: Action, next: Rule) {
    Live(next) && (action.Activate? || ChangesTerms(current, action, next))
  }

  ghost function CheckRefusal(rules: seq<Rule>, next: Rule, catalog: Catalog, today: Day): Option<Refusal> {
    var conflicts := Reports(next.(lifecycle := Active), rules, catalog.types, today);
    if next.endsOn.Some? && next.endsOn.value < today then Some(ExpiredActivation)
    else if conflicts != [] then Some(Contradicts(conflicts))
    else None
  }

  function CurrentRow(rules: seq<Rule>, action: Action): Option<Rule> {
    if action.Create? then None else Find(rules, HasId(action.id))
  }

  /** Why a request is refused, in the order the tests are made. */
  ghost function Reason(rules: seq<Rule>, action: Action, catalog: Catalog, today: Day): Option<Refusal> {
    var current := CurrentRow(rules, action);
    if !action.Create? && current.None? then Some(NotFound)
    else
      var lifecycle := if current.Some? then LifecycleOn(current.value, today) else Draft;
      var next := NextRow(current, action, today);
      if LifecycleRefusal(lifecycle, action).Some? then LifecycleRefusal(lifecycle, action)
      else if
        && (Creates(action) || action.Activate? || ChangesTerms(current, action, next))
        && TargetsMissing(next, catalog)
      then Some(MissingTarget)
      else if Checked(current, action, next) && CheckRefusal(rules, next, catalog, today).Some?
      then CheckRefusal(rules, next, catalog, today)
      else if Creates(action) && (exists r :: r in rules && r.id == next.id) then Some(IdTaken)
      else None
  }

  function Replace(rules: seq<Rule>, next: Rule): (r: seq<Rule>)
    ensures forall x :: x in r <==>
              (x in rules && x.id != next.id) || (x == next && exists y :: y in rules && y.id == next.id)
  {
    if rules == [] then []
    else
      var rest := Replace(rules[1..], next);
      assert forall x :: x in rules <==> x == rules[0] || x in rules[1..];
      [if rules[0].id == next.id then next else rules[0]] + rest
  }

  function Without(id: string): Rule -> bool {
    (rule: Rule) => rule.id != id
  }

  /** The table after an accepted request; new rows are listed first. */
  function Written(rules: seq<Rule>, action: Action, today: Day): seq<Rule>
    requires action.Create? || CurrentRow(rules, action).Some?
  {
    var next := NextRow(CurrentRow(rules, action), action, today);
    if action.Delete? then Filter(rules, Without(next.id))
    else if Creates(action) then [next] + rules
    else Replace(rules, next)
  }

  ghost function Mutated(rules: seq<Rule>, action: Action, catalog: Catalog, today: Day): seq<Rule> {
    if Reason(rules, action, catalog, today).Some? then rules else Written(rules, action, today)
  }

  class RestrictionDesk {
    var rules: seq<Rule>

    constructor ()
      ensures rules == []
    {
      rules := [];
    }

    /** One request, in one transaction behind the property's lock: it writes its row or changes nothing. */
    method Mutate(action: Action, catalog: Catalog, today: Day) returns (refusal: Option<Refusal>)
      modifies this
      ensures refusal == Reason(old(rules), action, catalog, today)
      ensures rules == Mutated(old(rules), action, catalog, today)
    {
      hide Reports, SameTerms, TargetsMissing;
      var current := CurrentRow(rules, action);
      if !action.Create? && current.None? {
        return Some(NotFound);
      }
      var lifecycle := if current.Some? then LifecycleOn(current.value, today) else Draft;
      refusal := LifecycleRefusal(lifecycle, action);
      if refusal.Some? {
        return;
      }
      var next := NextRow(current, action, today);
      var materialChanged := ChangesTerms(current, action, next);
      if (Creates(action) || action.Activate? || materialChanged) && TargetsMissing(next, catalog) {
        return Some(MissingTarget);
      }
      if Live(next) && (action.Activate? || materialChanged) {
        if next.endsOn.Some? && next.endsOn.value < today {
          return Some(ExpiredActivation);
        }
        var conflicts := RestrictionConflictsFor(next.(lifecycle := Active), rules, catalog.types, today);
        if conflicts != [] {
          return Some(Contradicts(conflicts));
        }
      }
      if Creates(action) {
        if exists r :: r in rules && r.id == next.id {
          return Some(IdTaken);
        }
        rules := [next] + rules;
      } else if action.Delete? {
        rules := Filter(rules, Without(next.id));
      } else {
        rules := Replace(rules, next);
      }
      refusal := None;
    }
  }

  // ---------------------------------------------------------------- one request keeps the rules clear

  /** A rule that clashes with no live rule can join or replace one of a clear set. */
  lemma {:induction false} NextKeepsClear(rules: seq<Rule>, after: seq<Rule>, next: Rule, types: seq<TypeRef>,
      today: Day)
    requires PairwiseClear(rules, types, today)
    requires forall r :: r in after ==> r == next || (r in rules && r.id != next.id)
    requires forall r, d :: r in rules && r.id != next.id && today <= d && Live(next) ==> !Clash(next, r, types, d)
    ensures PairwiseClear(after, types, today)
  {
    forall a, b, d | a in after && b in after && today <= d && Live(a)
      ensures !Clash(a, b, types, d)
    {
      assert Clash(a, b, types, d) ==> Clash(b, a, types, d);
    }
  }

  /** Passing the look-ahead means that no later day brings a clash. */
  lemma {:induction false} CheckedIsClear(rules: seq<Rule>, next: Rule, types: seq<TypeRef>, today: Day)
    requires Reports(next.(lifecycle := Active), rules, types, today) == []
    ensures forall r, d :: r in rules && today <= d ==> !Clash(next, r, types, d)
  {
    var candidate := next.(lifecycle := Active);
    NothingReported(candidate, rules, types, today);
    forall r, d | r in rules && today <= d
      ensures !Clash(next, r, types, d)
    {
      LookaheadComplete(candidate, r, types, today);
      assert Clash(next, r, types, d) ==> Clash(candidate, r, types, d);
    }
  }

  /** Every request, accepted or refused, keeps ids unique and live rules free of clashes. */
  lemma {:induction false} RequestKeepsClear(rules: seq<Rule>, action: Action, catalog: Catalog, today: Day)
    requires IdsIdentify(rules) && PairwiseClear(rules, catalog.types, today)
    ensures IdsIdentify(Mutated(rules, action, catalog, today))
    ensures PairwiseClear(Mutated(rules, action, catalog, today), catalog.types, today)
  {
    hide TargetsMissing, LifecycleRefusal;
    var current := CurrentRow(rules, action);
    var after := Mutated(rules, action, catalog, today);
    if Reason(rules, action, catalog, today).None? {
      var next := NextRow(current, action, today);
      forall r, d | r in rules && r.id != next.id && today <= d && Live(next)
        ensures !Clash(next, r, catalog.types, d)
      {
        if Checked(current, action, next) {
          CheckedIsClear(rules, next, catalog.types, today);
        } else {
          assert current.Some? && current.value in rules && SameTerms(next, current.value) && Live(current.value);
          assert !Clash(current.value, r, catalog.types, d);
        }
      }
      NextKeepsClear(rules, after, next, catalog.types, today);
    }
  }

  // ---------------------------------------------------------------- the catalogue

  /** Rules of a category and of a room type that the type would now bring together without the check. */
  ghost predicate Reopens(rules: seq<Rule>, item: TypeRef, types: seq<TypeRef>, today: Day) {
    exists category, roomType ::
      && category in rules && roomType in rules && Live(category) && Live(roomType)
      && category.scope == Category && item.categoryId.Some? && item.categoryId.value in category.targetIds
      && roomType.scope == RoomType && item.id in roomType.targetIds
      && Report(category, roomType, types, today).Some?
  }

  /** A change of the room types keeps the rules clear iff no type that is new, or has a new category,
      reopens an overlap. */
  lemma {:induction false} CatalogChangeKeepsClearIff(rules: seq<Rule>, before: seq<TypeRef>,
      after: seq<TypeRef>, today: Day)
    requires PairwiseClear(rules, before, today)
    ensures PairwiseClear(rules, after, today) <==>
      forall item :: item in after && item !in before ==> !Reopens(rules, item, after, today)
  {
    if item :| item in after && item !in before && Reopens(rules, item, after, today) {
      var category, roomType :| category in rules && roomType in rules && Live(category) && Live(roomType)
        && Report(category, roomType, after, today).Some?;
      LookaheadComplete(category, roomType, after, today);
      var d :| today <= d && Clash(category, roomType, after, d);
      assert !PairwiseClear(rules, after, today);
    }
    if a, b, d :| a in rules && b in rules && today <= d && Live(a) && Clash(a, b, after, d) {
      assert !Clash(a, b, before, d);
      assert !RestrictionScopesOverlap(a, b, before);
      var category := if a.scope == Category then a else b;
      var roomType := if a.scope == Category then b else a;
      var item :| item in after && item.id in roomType.targetIds && item.categoryId.Some?
        && item.categoryId.value in category.targetIds;
      assert Clash(category, roomType, after, d);
      LookaheadComplete(category, roomType, after, today);
      assert Reopens(rules, item, after, today);
    }
  }

  /** Removing room types, or taking their category away, reopens nothing. */
  ghost predicate CategoriesKept(before: seq<TypeRef>, after: seq<TypeRef>) {
    forall item :: item in after && item.categoryId.Some? ==> item in before
  }

  // ---------------------------------------------------------------- whole histories

  datatype Event =
    | Request(action: Action, day: Day)
    | CatalogChange(catalog: Catalog, day: Day)

  datatype Desk = Desk(rules: seq<Rule>, catalog: Catalog)

  ghost function Step(s: Desk, e: Event): Desk {
    match e
    case Request(action, day) => s.(rules := Mutated(s.rules, action, s.catalog, day))
    case CatalogChange(catalog, _) => s.(catalog := catalog)
  }

  ghost function RunOf(s: Desk, events: seq<Event>): Desk
    decreases events
  {
    if events == [] then s else RunOf(Step(s, events[0]), events[1..])
  }

  ghost predicate Sound(s: Desk, today: Day) {
    IdsIdentify(s.rules) && PairwiseClear(s.rules, s.catalog.types, today)
  }

  ghost predicate InOrder(events: seq<Event>, from: Day) {
    events == [] || (from <= events[0].day && InOrder(events[1..], events[0].day))
  }

  /** Free of contradictions after every event, from that event's day on. */
  ghost predicate AlwaysSound(s: Desk, events: seq<Event>)
    decreases events
  {
    events == [] || (Sound(Step(s, events[0]), events[0].day) && AlwaysSound(Step(s, events[0]), events[1..]))
  }

  /** Every change of the catalogue, at its time, reopens no overlap. */
  ghost predicate CatalogSafe(s: Desk, events: seq<Event>)
    decreases events
  {
    events == []
    || (&& (events[0].CatalogChange? ==>
              forall item :: item in events[0].catalog.types && item !in s.catalog.types ==>
                !Reopens(s.rules, item, events[0].catalog.types, events[0].day))
        && CatalogSafe(Step(s, events[0]), events[1..]))
  }

  lemma {:induction false} SoundLater(s: Desk, day: Day, later: Day)
    requires Sound(s, day) && day <= later
    ensures Sound(s, later)
  {
  }

  lemma {:induction false} StepSoundIff(s: Desk, e: Event)
    requires Sound(s, e.day)
    ensures Sound(Step(s, e), e.day) <==>
      (e.CatalogChange? ==> forall item :: item in e.catalog.types && item !in s.catalog.types ==>
        !Reopens(s.rules, item, e.catalog.types, e.day))
  {
    match e
    case Request(action, day) => RequestKeepsClear(s.rules, action, s.catalog, day);
    case CatalogChange(catalog, day) => CatalogChangeKeepsClearIff(s.rules, s.catalog.types, catalog.types, day);
  }

  /** Over any history the rules stay free of contradictions iff no change of the catalogue reopens one. */
  lemma {:induction false} HistorySoundIff(s: Desk, events: seq<Event>, day: Day)
    requires Sound(s, day) && InOrder(events, day)
    ensures AlwaysSound(s, events) <==> CatalogSafe(s, events)
    decreases events
  {
    hide Reopens, Step, Sound;
    if events != [] {
      SoundLater(s, day, events[0].day);
      StepSoundIff(s, events[0]);
      if Sound(Step(s, events[0]), events[0].day) {
        HistorySoundIff(Step(s, events[0]), events[1..], events[0].day);
      }
    }
  }

  /** A catalogue that only loses room types and categories is safe. */
  lemma {:induction false} KeptCategoriesAreSafe(s: Desk, events: seq<Event>)
    requires forall i :: 0 <= i < |events| && events[i].CatalogChange? ==>
      CategoriesKept(RunOf(s, events[..i]).catalog.types, events[i].catalog.types)
    ensures CatalogSafe(s, events)
    decreases events
  {
    if events != [] {
      assert events[..0] == [];
      var rest := events[1..];
      forall i | 0 <= i < |rest| && rest[i].CatalogChange?
        ensures CategoriesKept(RunOf(Step(s, events[0]), rest[..i]).catalog.types, rest[i].catalog.types)
      {
        assert events[..i + 1][0] == events[0] && events[..i + 1][1..] == rest[..i];
        assert rest[i] == events[i + 1];
      }
      KeptCategoriesAreSafe(Step(s, events[0]), rest);
    }
  }

  lemma {:induction false} RunSound(s: Desk, events: seq<Event>, day: Day, today: Day)
    requires Sound(s, day) && InOrder(events, day) && AlwaysSound(s, events)
    requires day <= today && (events != [] ==> events[|events| - 1].day <= today)
    ensures Sound(RunOf(s, events), today)
    decreases events
  {
    if events == [] {
      SoundLater(s, day, today);
    } else {
      assert events[1..] != [] ==> events[1..][|events[1..]| - 1] == events[|events| - 1];
      LastIsLatest(events, day);
      RunSound(Step(s, events[0]), events[1..], events[0].day, today);
    }
  }

  lemma {:induction false} LastIsLatest(events: seq<Event>, day: Day)
    requires InOrder(events, day) && events != []
    ensures events[0].day <= events[|events| - 1].day
  {
    if |events| > 1 {
      LastIsLatest(events[1..], events[0].day);
    }
  }

  function AppliesTo(roomType: TypeRef): Rule -> bool {
    (rule: Rule) => Live(rule) && ScopeMatches(rule, roomType)
  }

  /** The restrictions loaded for a stay on a room type. */
  function Applicable(rules: seq<Rule>, roomType: TypeRef): seq<Rule> {
    Filter(rules, AppliesTo(roomType))
  }

  /** After any such history no stay from today on, on any room type, meets a priority conflict. */
  lemma {:induction false} HistoryNeverContradicts(s: Desk, events: seq<Event>, day: Day, today: Day, roomType: TypeRef,
      startsOn: Day, endsOn: Day, walk: Walk, r: Evaluation)
    requires Sound(s, day) && InOrder(events, day) && CatalogSafe(s, events)
    requires day <= today && (events != [] ==> events[|events| - 1].day <= today)
    requires roomType in RunOf(s, events).catalog.types && today <= startsOn <= endsOn
    requires EvaluatesTo(ChooserOf(Applicable(RunOf(s, events).rules, roomType)), startsOn, endsOn, today, walk, r)
    ensures forall e :: e in r.errors ==> !e.PriorityConflict?
  {
    HistorySoundIff(s, events, day);
    RunSound(s, events, day, today);
    var rules := Applicable(RunOf(s, events).rules, roomType);
    NoConflictReported(rules, roomType, RunOf(s, events).catalog.types, today, startsOn, endsOn, walk, r);
  }

  // ---------------------------------------------------------------- a change that reopens

  const EVERY_DAY := [1, 2, 3, 4, 5, 6, 7]

  function CategoryRule(day: Day): Rule {
    Rule("a", "", MinimumStay, 2, Category, ["c"], day, None, EVERY_DAY, 50, Draft)
  }

  function TypeRule(day: Day): Rule {
    Rule("b", "", MinimumStay, 3, RoomType, ["t"], day, None, EVERY_DAY, 50, Draft)
  }

  const APART := Catalog([TypeRef("t", None)], {"c"})
  const MOVED := Catalog([TypeRef("t", Some("c"))], {"c"})

  lemma {:induction false} CreateIsAccepted(rules: seq<Rule>, input: Rule, catalog: Catalog, day: Day)
    requires input.lifecycle == Draft && !TargetsMissing(input, catalog)
    requires forall r :: r in rules ==> r.id != input.id
    ensures Mutated(rules, Create(input.id, input), catalog, day) == [input] + rules
  {
  }

  lemma {:induction false} ActivateIsAccepted(rules: seq<Rule>, rule: Rule, catalog: Catalog, day: Day)
    requires rules != [] && rules[0] == rule && rule.lifecycle == Draft && !TargetsMissing(rule, catalog)
    requires rule.startsOn <= day && rule.endsOn.None?
    requires forall r :: r in rules[1..] ==> r.id != rule.id
    requires Reports(rule.(lifecycle := Active), rules, catalog.types, day) == []
    ensures Mutated(rules, Activate(rule.id), catalog, day) == [rule.(lifecycle := Active)] + rules[1..]
  {
    ReplaceKeepsOthers(rules[1..], rule.(lifecycle := Active));
  }

  lemma {:induction false} ReplaceKeepsOthers(rules: seq<Rule>, next: Rule)
    requires forall r :: r in rules ==> r.id != next.id
    ensures Replace(rules, next) == rules
  {
    if rules != [] {
      ReplaceKeepsOthers(rules[1..], next);
    }
  }

  lemma {:induction false} NothingComparable(candidate: Rule, existing: seq<Rule>, types: seq<TypeRef>, today: Day)
    requires forall r :: r in existing ==> !Comparable(candidate, r, types)
    ensures Reports(candidate, existing, types, today) == []
  {
    if existing != [] {
      assert forall d :: !Clash(candidate, existing[0], types, d);
      assert Report(candidate, existing[0], types, today) == None;
      NothingComparable(candidate, existing[1..], types, today);
    }
  }

  /** A rule of a category and one of a room type outside it, each created and activated through the check. */
  function FourRequests(day: Day): seq<Event> {
    [Request(Create("a", CategoryRule(day)), day), Request(Activate("a"), day),
     Request(Create("b", TypeRule(day)), day), Request(Activate("b"), day)]
  }

  lemma {:induction false} CreatedAndActivated(rules: seq<Rule>, rule: Rule, day: Day)
    requires rule.lifecycle == Draft && rule.startsOn <= day && rule.endsOn.None? && !TargetsMissing(rule, APART)
    requires forall r :: r in rules ==> r.id != rule.id
    requires Reports(rule.(lifecycle := Active), [rule] + rules, APART.types, day) == []
    ensures Mutated(Mutated(rules, Create(rule.id, rule), APART, day), Activate(rule.id), APART, day)
         == [rule.(lifecycle := Active)] + rules
  {
    hide Mutated, TargetsMissing, Reports;
    CreateIsAccepted(rules, rule, APART, day);
    assert ([rule] + rules)[1..] == rules;
    ActivateIsAccepted([rule] + rules, rule, APART, day);
  }

  lemma {:induction false} BothPass(day: Day)
    ensures var a, b := CategoryRule(day), TypeRule(day);
      && !TargetsMissing(a, APART) && !TargetsMissing(b, APART)
      && Reports(a.(lifecycle := Active), [a] + [], APART.types, day) == []
      && Reports(b.(lifecycle := Active), [b] + [a.(lifecycle := Active)], APART.types, day) == []
  {
    var a, b, types := CategoryRule(day), TypeRule(day), APART.types;
    assert types[0] in types && types[0].id == "t";
    assert !RestrictionScopesOverlap(b.(lifecycle := Active), a.(lifecycle := Active), types);
    NothingComparable(a.(lifecycle := Active), [a] + [], types, day);
    NothingComparable(b.(lifecycle := Active), [b] + [a.(lifecycle := Active)], types, day);
  }

  lemma {:induction false} BothActive(day: Day)
    ensures RunOf(Desk([], APART), FourRequests(day)) ==
      Desk([TypeRule(day).(lifecycle := Active)] + [CategoryRule(day).(lifecycle := Active)], APART)
  {
    hide TargetsMissing, Reports, Mutated, RunOf;
    var a, b := CategoryRule(day), TypeRule(day);
    BothPass(day);
    CreatedAndActivated([], a, day);
    assert [a.(lifecycle := Active)] + [] == [a.(lifecycle := Active)];
    CreatedAndActivated([a.(lifecycle := Active)], b, day);
    FourSteps(Desk([], APART), FourRequests(day));
  }

  lemma {:induction false} FourSteps(s: Desk, events: seq<Event>)
    requires |events| == 4
    ensures RunOf(s, events) == Step(Step(Step(Step(s, events[0]), events[1]), events[2]), events[3])
  {
    hide Step;
    assert events[1..][1..] == events[2..] && events[2..][1..] == events[3..] && events[3..][1..] == [];
    assert RunOf(Step(Step(Step(s, events[0]), events[1]), events[2]), events[3..]) ==
      Step(Step(Step(Step(s, events[0]), events[1]), events[2]), events[3]);
    assert RunOf(Step(Step(s, events[0]), events[1]), events[2..]) ==
      Step(Step(Step(Step(s, events[0]), events[1]), events[2]), events[3]);
  }

  /** Two rules that passed the check contradict each other once the room type is put into the category. */
  lemma {:induction false} MovingATypeReopens(day: Day)
    ensures AlwaysSound(Desk([], APART), FourRequests(day))
    ensures var s := Step(RunOf(Desk([], APART), FourRequests(day)), CatalogChange(MOVED, day));
      !Sound(s, day) && Contradictory(Applicable(s.rules, MOVED.types[0]), MinimumStay, day)
  {
    var start := Desk([], APART);
    OneDayIsInOrder(FourRequests(day), day);
    NoCatalogChange(start, FourRequests(day));
    HistorySoundIff(start, FourRequests(day), day);
    BothActive(day);
    ActivePairContradicts(day);
  }

  lemma {:induction false} OneDayIsInOrder(events: seq<Event>, day: Day)
    requires forall e :: e in events ==> e.day == day
    ensures InOrder(events, day)
  {
    if events != [] {
      OneDayIsInOrder(events[1..], day);
    }
  }

  lemma {:induction false} NoCatalogChange(s: Desk, events: seq<Event>)
    requires forall e :: e in events ==> e.Request?
    ensures CatalogSafe(s, events)
    decreases events
  {
    if events != [] {
      NoCatalogChange(Step(s, events[0]), events[1..]);
    }
  }

  lemma {:induction false} ActivePairContradicts(day: Day)
    ensures var rules := [TypeRule(day).(lifecycle := Active)] + [CategoryRule(day).(lifecycle := Active)];
      !PairwiseClear(rules, MOVED.types, day) && Contradictory(Applicable(rules, MOVED.types[0]), MinimumStay, day)
  {
    var b, a := TypeRule(day).(lifecycle := Active), CategoryRule(day).(lifecycle := Active);
    var rules, item := [b] + [a], MOVED.types[0];
    assert Weekday(day) in EVERY_DAY;
    assert a in rules && b in rules && item in MOVED.types;
    assert "t" in b.targetIds && "c" in a.targetIds;
    assert Clash(a, b, MOVED.types, day);
    var loaded := Applicable(rules, item);
    assert a in loaded && b in loaded;
    assert Wins(loaded, MinimumStay, day, a) && Wins(loaded, MinimumStay, day, b);
  }
}
