/** The saved pricing facts of a hotel and the price of one night, as the local evaluator computes it. */
module PricingModel {
  import opened Collections
  import opened Calendar
  import opened Money
  import opened Text

  /** A saved amount as `minor` reads it: minor units, or None for text it rejects by throwing. */
  type Amount = Option<int>

  datatype Channel = Website | Staff
  datatype PlanBasis = Independent | Derived | OtherBasis

  datatype Plan = Plan(
    id: string,
    currency: string,
    isActive: bool,
    lifecycleActive: bool,
    basis: PlanBasis,
    basePlanId: Option<string>,
    percentage: bool,
    adjustmentValue: Amount,
    roomTypeIds: seq<string>,
    channels: seq<Channel>,
    minStay: Option<int>,
    maxStay: Option<int>,
    minAdvance: Option<int>,
    publicationStartsOn: Option<Day>,
    publicationEndsOn: Option<Day>)

  /** Base price weekdays count Sunday as 0. */
  datatype BasePrice = BasePrice(
    id: string,
    ratePlanId: string,
    roomTypeId: string,
    startsOn: Option<Day>,
    endsOn: Option<Day>,
    weekdays: seq<int>,
    amount: Amount,
    createdAt: int)

  datatype DailyPrice = DailyPrice(ratePlanId: string, roomTypeId: string, date: Day, amount: Amount)
  datatype RoomOverride = RoomOverride(ratePlanId: string, roomId: string, amount: Amount)

  /** Adjustment weekdays count Sunday as 7. */
  datatype Adjustment = Adjustment(
    id: string,
    lifecycleActive: bool,
    percentage: bool,
    value: Amount,
    currency: Option<string>,
    roomTypeIds: seq<string>,
    ratePlanIds: seq<string>,
    startsOn: Day,
    endsOn: Option<Day>,
    weekdays: seq<int>,
    priority: int,
    minStay: Option<int>,
    maxStay: Option<int>,
    minAdvance: Option<int>,
    maxAdvance: Option<int>)

  datatype ChargeBasis =
    PerNight | PerAdultNight | PerPersonNight | PerStay | PercentageAccommodation | PercentageSubtotal

  datatype Charge = Charge(
    id: string,
    lifecycleActive: bool,
    confirmed: bool,
    basis: ChargeBasis,
    value: Amount,
    currency: Option<string>,
    roomTypeIds: seq<string>,
    ratePlanIds: seq<string>,
    channels: seq<Channel>,
    startsOn: Day,
    endsOn: Option<Day>)

  datatype Facts = Facts(
    plans: seq<Plan>,
    base: seq<BasePrice>,
    daily: seq<DailyPrice>,
    rules: seq<Adjustment>,
    charges: seq<Charge>,
    roomOverrides: seq<RoomOverride>)

  datatype Request = Request(
    ratePlanId: string,
    roomTypeId: string,
    roomId: Option<string>,
    startsOn: Day,
    endsOn: Day,
    adults: int,
    children: int,
    channel: Channel,
    today: Day)

  /** What stays fixed while the nights of one stay are priced. */
  datatype Context = Context(facts: Facts, request: Request, plan: Plan, root: Plan)

  datatype Kind = BaseAmount | RuleAmount | PlanAmount | ChargeAmount
  datatype Component = Component(kind: Kind, id: string, amount: int)
  datatype PricedNight = PricedNight(date: Day, amount: int, components: seq<Component>)

  datatype Code =
    | Invalid | PlanInvalid | Occupancy | CurrencyUnsupported | PlanUnavailable
    | MissingBase | PriorityConflict | AmountInvalid

  predicate InScope(ids: seq<string>, id: string) {
    ids == [] || id in ids
  }

  predicate Scheduled(startsOn: Day, endsOn: Option<Day>, date: Day) {
    startsOn <= date && (endsOn.Some? ==> date <= endsOn.value)
  }

  predicate AtLeast(limit: Option<int>, n: int) {
    limit.Some? ==> n >= limit.value
  }

  predicate AtMost(limit: Option<int>, n: int) {
    limit.Some? ==> n <= limit.value
  }

  // ---------------------------------------------------------------- base price

  /** Dated prices first, then the newest, then the greatest id. */
  predicate Precedes(a: BasePrice, b: BasePrice) {
    if a.startsOn.Some? != b.startsOn.Some? then a.startsOn.Some?
    else if a.createdAt != b.createdAt then a.createdAt > b.createdAt
    else Less(b.id, a.id)
  }

  /** `prices.sort(...)[0]`: the first price no other one precedes. */
  function Foremost(prices: seq<BasePrice>): Option<BasePrice> {
    if prices == [] then None
    else
      var rest := Foremost(prices[1..]);
      if rest.Some? && Precedes(rest.value, prices[0]) then rest else Some(prices[0])
  }

  function BaseApplies(planId: string, roomTypeId: string, date: Day): BasePrice -> bool {
    (b: BasePrice) =>
      && b.ratePlanId == planId
      && b.roomTypeId == roomTypeId
      && Weekday(date) % 7 in b.weekdays
      && (b.startsOn.None? || (b.endsOn.Some? && b.startsOn.value <= date <= b.endsOn.value))
  }

  function DailyApplies(planId: string, roomTypeId: string, date: Day): DailyPrice -> bool {
    (d: DailyPrice) => d.ratePlanId == planId && d.roomTypeId == roomTypeId && d.date == date
  }

  function OverrideApplies(planId: string, roomId: string): RoomOverride -> bool {
    (o: RoomOverride) => o.ratePlanId == planId && o.roomId == roomId
  }

  datatype Chosen = Chosen(id: string, amount: Amount)

  /** Room override, else manual daily price, else the foremost base price. */
  function ResolveBasePrice(facts: Facts, planId: string, roomTypeId: string, date: Day, roomId: Option<string>)
    : Option<Chosen>
  {
    var override := if roomId.Some? then Find(facts.roomOverrides, OverrideApplies(planId, roomId.value)) else None;
    var daily := Find(facts.daily, DailyApplies(planId, roomTypeId, date));
    var base := Foremost(Filter(facts.base, BaseApplies(planId, roomTypeId, date)));
    if override.Some? then Some(Chosen("room:" + roomId.value, override.value.amount))
    else if daily.Some? then Some(Chosen("daily:" + planId + ":" + roomTypeId, daily.value.amount))
    else if base.Some? then Some(Chosen(base.value.id, base.value.amount))
    else None
  }

  // ---------------------------------------------------------------- adjustment rules

  function RuleApplies(c: Context, date: Day): Adjustment -> bool {
    var nights := c.request.endsOn - c.request.startsOn;
    var advance := c.request.startsOn - c.request.today;
    (r: Adjustment) =>
      && r.lifecycleActive
      && InScope(r.roomTypeIds, c.request.roomTypeId)
      && (r.ratePlanIds == [] || c.request.ratePlanId in r.ratePlanIds || c.root.id in r.ratePlanIds)
      && Scheduled(r.startsOn, r.endsOn, date)
      && Weekday(date) in r.weekdays
      && AtLeast(r.minStay, nights) && AtMost(r.maxStay, nights)
      && AtLeast(r.minAdvance, advance) && AtMost(r.maxAdvance, advance)
      && (r.currency.None? || r.currency.value == c.plan.currency)
  }

  function Priority(): Adjustment -> int {
    (r: Adjustment) => r.priority
  }

  function TopRules(c: Context, date: Day): seq<Adjustment> {
    Highest(Filter(c.facts.rules, RuleApplies(c, date)), Priority())
  }

  /** A percentage multiplies by (100 + value) percent and rounds; an amount is added `times` over. */
  function Adjust(amount: int, percentage: bool, value: int, times: int): int {
    if percentage then RoundMinor(amount * (10000 + value), 10000) else amount + value * times
  }

  // ---------------------------------------------------------------- charges

  function ChargeApplies(c: Context, date: Day): Charge -> bool {
    (x: Charge) =>
      && x.lifecycleActive && x.confirmed
      && InScope(x.roomTypeIds, c.request.roomTypeId)
      && InScope(x.ratePlanIds, c.plan.id)
      && c.request.channel in x.channels
      && Scheduled(x.startsOn, x.endsOn, date)
      && (x.currency.None? || x.currency.value == c.plan.currency)
  }

  predicate IsPercentage(x: Charge) {
    x.basis == PercentageAccommodation || x.basis == PercentageSubtotal
  }

  function IsPercentageCharge(): Charge -> bool {
    (x: Charge) => IsPercentage(x)
  }

  function IsFixedCharge(): Charge -> bool {
    (x: Charge) => !IsPercentage(x)
  }

  function Fixed(c: Context, date: Day): seq<Charge> {
    Filter(Filter(c.facts.charges, ChargeApplies(c, date)), IsFixedCharge())
  }

  function Percentages(c: Context, date: Day): seq<Charge> {
    Filter(Filter(c.facts.charges, ChargeApplies(c, date)), IsPercentageCharge())
  }

  predicate AllParse(charges: seq<Charge>) {
    forall x :: x in charges ==> x.value.Some?
  }

  function ValueOf(x: Charge): int {
    if x.value.Some? then x.value.value else 0
  }

  /** What a fixed charge adds to a night; a per-stay charge only when it was not taken before. */
  function FixedAmount(c: Context, x: Charge): int {
    match x.basis
    case PerAdultNight => ValueOf(x) * c.request.adults
    case PerPersonNight => ValueOf(x) * (c.request.adults + c.request.children)
    case _ => ValueOf(x)
  }

  predicate Skips(x: Charge, once: set<string>) {
    x.basis == PerStay && x.id in once
  }

  datatype Charged = Charged(amount: int, components: seq<Component>, once: set<string>)

  function ChargeComponent(x: Charge, amount: int): Component {
    Component(ChargeAmount, x.id, amount)
  }

  function ChargeFixed(c: Context, charges: seq<Charge>, once: set<string>): Charged
    decreases charges
  {
    if charges == [] then Charged(0, [], once)
    else if Skips(charges[0], once) then ChargeFixed(c, charges[1..], once)
    else
      var x := charges[0];
      var rest := ChargeFixed(c, charges[1..], if x.basis == PerStay then once + {x.id} else once);
      Charged(FixedAmount(c, x) + rest.amount,
              [ChargeComponent(x, FixedAmount(c, x))] + rest.components, rest.once)
  }

  function PercentageAmount(accommodation: int, fixed: int): Charge -> int {
    (x: Charge) =>
      RoundMinor((accommodation + if x.basis == PercentageSubtotal then fixed else 0) * ValueOf(x), 10000)
  }

  function PercentageComponents(charges: seq<Charge>, accommodation: int, fixed: int): seq<Component> {
    seq(|charges|, i requires 0 <= i < |charges| =>
      ChargeComponent(charges[i], PercentageAmount(accommodation, fixed)(charges[i])))
  }

  // ---------------------------------------------------------------- one night

  /** What the saved facts say about one night: its base price, the rules of the highest priority,
      and the charges that apply. */
  datatype NightFacts = NightFacts(
    chosen: Option<Chosen>,
    rules: seq<Adjustment>,
    fixed: seq<Charge>,
    percentages: seq<Charge>)

  type Selector = Day -> NightFacts

  function SelectorOf(c: Context): Selector {
    (date: Day) => NightFacts(
      ResolveBasePrice(c.facts, c.root.id, c.request.roomTypeId, date, c.request.roomId),
      TopRules(c, date), Fixed(c, date), Percentages(c, date))
  }

  /** Accommodation after base price, rule and derived plan, with its components. */
  datatype Accommodation =
    | Accommodation(amount: int, components: seq<Component>)
    | NoPrice(code: Code)
    | Unreadable

  function AdjustBy(amount: int, percentage: bool, value: Amount, times: int): Amount {
    if value.None? then None else Some(Adjust(amount, percentage, value.value, times))
  }

  function AfterRules(base: int, rules: seq<Adjustment>): Amount {
    if rules == [] then Some(base) else AdjustBy(base, rules[0].percentage, rules[0].value, 1)
  }

  function AfterPlan(c: Context, ruled: int): Amount {
    if c.plan.basis != Derived then Some(ruled)
    else AdjustBy(ruled, c.plan.percentage, c.plan.adjustmentValue, c.request.adults + c.request.children)
  }

  function AccommodationOf(c: Context, night: NightFacts): Accommodation {
    if night.chosen.None? then NoPrice(MissingBase)
    else if night.chosen.value.amount.None? then Unreadable
    else if |night.rules| > 1 then NoPrice(PriorityConflict)
    else
      var base := night.chosen.value.amount.value;
      var ruled := AfterRules(base, night.rules);
      if ruled.None? then Unreadable
      else
        var planned := AfterPlan(c, ruled.value);
        if planned.None? then Unreadable
        else if planned.value < 0 || planned.value > MONEY_LIMIT then NoPrice(AmountInvalid)
        else Accommodation(planned.value,
          [Component(BaseAmount, night.chosen.value.id, base)]
          + (if night.rules == [] then [] else [Component(RuleAmount, night.rules[0].id, ruled.value - base)])
          + (if c.plan.basis != Derived then []
             else [Component(PlanAmount, c.plan.id, planned.value - ruled.value)]))
  }

  datatype NightOutcome =
    | Priced(amount: int, components: seq<Component>, once: set<string>)
    | Failed(code: Code, once: set<string>)
    | Thrown

  function PriceNight(c: Context, night: NightFacts, once: set<string>): NightOutcome {
    match AccommodationOf(c, night)
    case NoPrice(code) => Failed(code, once)
    case Unreadable => Thrown
    case Accommodation(accommodation, components) =>
      if !AllParse(night.fixed) || !AllParse(night.percentages) then Thrown
      else
        var fixed := ChargeFixed(c, night.fixed, once);
        var amount := accommodation + fixed.amount
                      + Sum(night.percentages, PercentageAmount(accommodation, fixed.amount));
        if amount < 0 || amount > MONEY_LIMIT then Failed(AmountInvalid, fixed.once)
        else Priced(amount,
                    components + fixed.components
                    + PercentageComponents(night.percentages, accommodation, fixed.amount),
                    fixed.once)
  }

  // ---------------------------------------------------------------- the stay

  predicate Published(c: Context, date: Day) {
    && (c.root.publicationStartsOn.Some? ==> c.root.publicationStartsOn.value <= date)
    && (c.root.publicationEndsOn.Some? ==> date <= c.root.publicationEndsOn.value)
    && (c.plan.publicationStartsOn.Some? ==> c.plan.publicationStartsOn.value <= date)
    && (c.plan.publicationEndsOn.Some? ==> date <= c.plan.publicationEndsOn.value)
  }

  datatype Failure = Failure(code: Code, date: Option<Day>)

  datatype Run = Run(errors: seq<Failure>, total: int, nights: seq<PricedNight>)

  type Pricer = (Day, set<string>) -> NightOutcome

  function PricerOf(c: Context, select: Selector): Pricer {
    (date: Day, once: set<string>) => PriceNight(c, select(date), once)
  }

  /** What one night adds to the run: errors, or an amount and a priced night. */
  function NightRun(c: Context, date: Day, outcome: NightOutcome): Run {
    var unpublished := if Published(c, date) then [] else [Failure(PlanUnavailable, Some(date))];
    match outcome
    case Thrown => Run(unpublished + [Failure(AmountInvalid, None)], 0, [])
    case Failed(code, _) => Run(unpublished + [Failure(code, Some(date))], 0, [])
    case Priced(amount, components, _) => Run(unpublished, amount, [PricedNight(date, amount, components)])
  }

  function Join(a: Run, b: Run): Run {
    Run(a.errors + b.errors, a.total + b.total, a.nights + b.nights)
  }

  /** The nights from `date` on, after the charges in `once` were taken; unreadable money ends the run. */
  function RunNights(c: Context, price: Pricer, date: Day, once: set<string>): Run
    decreases c.request.endsOn - date
  {
    if date >= c.request.endsOn then Run([], 0, [])
    else
      var outcome := price(date, once);
      var night := NightRun(c, date, outcome);
      if outcome.Thrown? then night else Join(night, RunNights(c, price, date + 1, outcome.once))
  }

  predicate PlanAvailable(p: Plan, request: Request) {
    && p.isActive && p.lifecycleActive
    && request.channel in p.channels
    && InScope(p.roomTypeIds, request.roomTypeId)
    && AtLeast(p.minStay, request.endsOn - request.startsOn)
    && AtMost(p.maxStay, request.endsOn - request.startsOn)
    && AtLeast(p.minAdvance, request.startsOn - request.today)
  }

  predicate OccupancyValid(request: Request) {
    request.adults >= 1 && request.children >= 0 && request.adults + request.children <= 1000
  }

  function HasId(id: string): Plan -> bool {
    (p: Plan) => p.id == id
  }

  /** The requested plan and the independent plan it prices from. */
  function PlansOf(facts: Facts, request: Request): Option<(Plan, Plan)> {
    var plan := Find(facts.plans, HasId(request.ratePlanId));
    if plan.None? then None
    else
      var root := if plan.value.basis != Derived then plan
                  else if plan.value.basePlanId.None? then None
                  else Find(facts.plans, HasId(plan.value.basePlanId.value));
      if root.None? || root.value.basis != Independent || root.value.currency != plan.value.currency then None
      else Some((plan.value, root.value))
  }

  /** Errors found before any night is priced. */
  function StayErrors(c: Context, twoDecimals: set<string>): seq<Failure> {
    (if OccupancyValid(c.request) then [] else [Failure(Occupancy, None)])
    + (if c.plan.currency in twoDecimals then [] else [Failure(CurrencyUnsupported, None)])
    + (if PlanAvailable(c.root, c.request) then [] else [Failure(PlanUnavailable, None)])
    + (if c.plan.id == c.root.id || PlanAvailable(c.plan, c.request) then [] else [Failure(PlanUnavailable, None)])
  }

  datatype Total = Total(amount: int, currency: string)
  datatype Result = Result(valid: bool, errors: seq<Failure>, total: Option<Total>, nightlyRates: seq<PricedNight>)

  function Refused(code: Code): Result {
    Result(false, [Failure(code, None)], None, [])
  }

  predicate ValidStay(request: Request) {
    request.startsOn < request.endsOn && request.endsOn - request.startsOn <= 3660
  }

  /** The whole evaluation. */
  function Evaluate(facts: Facts, request: Request, twoDecimals: set<string>): Result {
    if !ValidStay(request) then Refused(Invalid)
    else
      var plans := PlansOf(facts, request);
      if plans.None? then Refused(PlanInvalid)
      else
        var c := Context(facts, request, plans.value.0, plans.value.1);
        var run := RunNights(c, PricerOf(c, SelectorOf(c)), request.startsOn, {});
        var errors := StayErrors(c, twoDecimals) + run.errors
                      + (if run.total > MONEY_LIMIT then [Failure(AmountInvalid, None)] else []);
        if errors == [] then Result(true, [], Some(Total(run.total, c.plan.currency)), run.nights)
        else Result(false, errors, None, [])
  }
}
