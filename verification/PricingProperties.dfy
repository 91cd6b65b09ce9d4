/** What a valid pricing result guarantees: exact sums, one entry per night, and once-per-stay charges. */
module PricingProperties {
  import opened Collections
  import opened Calendar
  import opened Money
  import opened PricingModel

  function ComponentAmount(): Component -> int {
    (x: Component) => x.amount
  }

  function NightAmount(): PricedNight -> int {
    (n: PricedNight) => n.amount
  }

  /** One entry per consecutive night from `date`, each the exact sum of its components and within the
      money limit. */
  ghost predicate ExactNights(nights: seq<PricedNight>, date: Day) {
    forall i :: 0 <= i < |nights| ==>
      && nights[i].date == date + i
      && nights[i].amount == Sum(nights[i].components, ComponentAmount())
      && 0 <= nights[i].amount <= MONEY_LIMIT
  }

  lemma {:induction false} AccommodationExact(c: Context, night: NightFacts)
    requires AccommodationOf(c, night).Accommodation?
    ensures var a := AccommodationOf(c, night); a.amount == Sum(a.components, ComponentAmount())
    ensures forall x :: x in AccommodationOf(c, night).components ==> x.kind != ChargeAmount
  {
    var base := night.chosen.value.amount.value;
    var ruled := AfterRules(base, night.rules).value;
    var planned := AfterPlan(c, ruled).value;
    var first := [Component(BaseAmount, night.chosen.value.id, base)];
    var second := if night.rules == [] then [] else [Component(RuleAmount, night.rules[0].id, ruled - base)];
    var third := if c.plan.basis != Derived then [] else [Component(PlanAmount, c.plan.id, planned - ruled)];
    assert AccommodationOf(c, night).components == first + second + third;
    SumAppend(first + second, third, ComponentAmount());
    SumAppend(first, second, ComponentAmount());
    SumAtMostOne(second, ruled - base);
    SumAtMostOne(third, planned - ruled);
    SumAtMostOne(first, base);
  }

  lemma {:induction false} SumAtMostOne(xs: seq<Component>, amount: int)
    requires |xs| <= 1 && (xs != [] ==> xs[0].amount == amount)
    ensures Sum(xs, ComponentAmount()) == if xs == [] then 0 else amount
  {
    if xs != [] {
      assert xs[1..] == [];
    }
  }

  lemma {:induction false} FixedExact(c: Context, charges: seq<Charge>, once: set<string>)
    ensures var r := ChargeFixed(c, charges, once); r.amount == Sum(r.components, ComponentAmount())
    decreases charges
  {
    if charges != [] {
      var x := charges[0];
      FixedExact(c, charges[1..],
        if Skips(x, once) then once else if x.basis == PerStay then once + {x.id} else once);
    }
  }

  lemma {:induction false} PercentagesExact(charges: seq<Charge>, accommodation: int, fixed: int)
    ensures Sum(PercentageComponents(charges, accommodation, fixed), ComponentAmount())
         == Sum(charges, PercentageAmount(accommodation, fixed))
  {
    if charges != [] {
      PercentagesExact(charges[1..], accommodation, fixed);
      assert PercentageComponents(charges, accommodation, fixed)[1..]
          == PercentageComponents(charges[1..], accommodation, fixed);
    }
  }

  lemma {:induction false} NightExact(c: Context, night: NightFacts, once: set<string>)
    requires PriceNight(c, night, once).Priced?
    ensures var r := PriceNight(c, night, once);
            r.amount == Sum(r.components, ComponentAmount()) && 0 <= r.amount <= MONEY_LIMIT
  {
    var a := AccommodationOf(c, night);
    var fixed := ChargeFixed(c, night.fixed, once);
    var last := PercentageComponents(night.percentages, a.amount, fixed.amount);
    AccommodationExact(c, night);
    FixedExact(c, night.fixed, once);
    PercentagesExact(night.percentages, a.amount, fixed.amount);
    SumAppend(a.components + fixed.components, last, ComponentAmount());
    SumAppend(a.components, fixed.components, ComponentAmount());
  }

  lemma {:induction false} RunExact(c: Context, select: Selector, price: Pricer, date: Day, once: set<string>)
    requires price == PricerOf(c, select)
    requires RunNights(c, price, date, once).errors == []
    ensures var run := RunNights(c, price, date, once);
            && |run.nights| == (if date < c.request.endsOn then c.request.endsOn - date else 0)
            && ExactNights(run.nights, date)
            && run.total == Sum(run.nights, NightAmount())
    decreases c.request.endsOn - date
  {
    if date < c.request.endsOn {
      var outcome := price(date, once);
      NoErrorsMeansPriced(c, price, date, once);
      NightExact(c, select(date), once);
      RunExact(c, select, price, date + 1, outcome.once);
    }
  }

  /** A run without errors priced its first night and ran on without errors. */
  lemma {:induction false} NoErrorsMeansPriced(c: Context, price: Pricer, date: Day, once: set<string>)
    requires date < c.request.endsOn && RunNights(c, price, date, once).errors == []
    ensures price(date, once).Priced? && Published(c, date)
    ensures var outcome := price(date, once);
            var rest := RunNights(c, price, date + 1, outcome.once);
            && rest.errors == []
            && RunNights(c, price, date, once)
               == Run([], outcome.amount + rest.total,
                      [PricedNight(date, outcome.amount, outcome.components)] + rest.nights)
  {
    var outcome := price(date, once);
    var night := NightRun(c, date, outcome);
    if !outcome.Thrown? {
      var rest := RunNights(c, price, date + 1, outcome.once);
      assert |Join(night, rest).errors| == |night.errors| + |rest.errors|;
    }
  }

  /** The context a valid result was priced in. */
  lemma {:induction false} ValidResultRuns(facts: Facts, request: Request, twoDecimals: set<string>)
    returns (c: Context, price: Pricer)
    requires Evaluate(facts, request, twoDecimals).valid
    ensures ValidStay(request) && c.request == request && c.facts == facts
    ensures PlansOf(facts, request) == Some((c.plan, c.root))
    ensures price == PricerOf(c, SelectorOf(c))
    ensures var run := RunNights(c, price, request.startsOn, {});
            var r := Evaluate(facts, request, twoDecimals);
            && StayErrors(c, twoDecimals) == [] && run.errors == [] && run.total <= MONEY_LIMIT
            && r.nightlyRates == run.nights && r.total == Some(Total(run.total, c.plan.currency))
  {
    var plans := PlansOf(facts, request).value;
    c := Context(facts, request, plans.0, plans.1);
    price := PricerOf(c, SelectorOf(c));
    var run := RunNights(c, price, request.startsOn, {});
    var tail := if run.total > MONEY_LIMIT then [Failure(AmountInvalid, None)] else [];
    assert |StayErrors(c, twoDecimals) + run.errors + tail|
        == |StayErrors(c, twoDecimals)| + |run.errors| + |tail|;
  }

  /** A valid result has one entry per night of the stay, every amount the exact sum of its parts. */
  lemma {:induction false} ValidResultExact(facts: Facts, request: Request, twoDecimals: set<string>)
    requires Evaluate(facts, request, twoDecimals).valid
    ensures var r := Evaluate(facts, request, twoDecimals);
            && |r.nightlyRates| == request.endsOn - request.startsOn
            && ExactNights(r.nightlyRates, request.startsOn)
            && r.total.Some? && r.total.value.amount == Sum(r.nightlyRates, NightAmount())
            && 0 <= r.total.value.amount <= MONEY_LIMIT
  {
    var c, price := ValidResultRuns(facts, request, twoDecimals);
    RunExact(c, SelectorOf(c), price, request.startsOn, {});
    SumNonNegative(Evaluate(facts, request, twoDecimals).nightlyRates);
  }

  lemma {:induction false} SumNonNegative(nights: seq<PricedNight>)
    requires forall i :: 0 <= i < |nights| ==> nights[i].amount >= 0
    ensures Sum(nights, NightAmount()) >= 0
  {
    if nights != [] {
      SumNonNegative(nights[1..]);
    }
  }

  // ---------------------------------------------------------------- once-per-stay charges

  function IsChargeOf(id: string): Component -> int {
    (x: Component) => if x.kind == ChargeAmount && x.id == id then 1 else 0
  }

  /** How many charge components of a night belong to one charge. */
  function Times(components: seq<Component>, id: string): int {
    Sum(components, IsChargeOf(id))
  }

  ghost predicate DistinctIds(charges: seq<Charge>) {
    forall i, j :: 0 <= i < j < |charges| ==> charges[i].id != charges[j].id
  }

  lemma {:induction false} FilterKeepsDistinct(charges: seq<Charge>, p: Charge -> bool)
    requires DistinctIds(charges)
    ensures DistinctIds(Filter(charges, p))
  {
    if charges != [] {
      FilterKeepsDistinct(charges[1..], p);
      var rest := Filter(charges[1..], p);
      forall k | 0 <= k < |rest|
        ensures rest[k].id != charges[0].id
      {
        assert rest[k] in charges[1..];
      }
    }
  }

  /** Among charges with distinct ids, a per-stay one is charged once if it is there and was not taken
      before; afterwards exactly the per-stay ids met so far count as taken. */
  lemma {:induction false} FixedTimes(c: Context, charges: seq<Charge>, once: set<string>, x: Charge)
    requires DistinctIds(charges) && x.basis == PerStay
    requires forall y :: y in charges && y.id == x.id ==> y == x
    ensures var r := ChargeFixed(c, charges, once);
            && Times(r.components, x.id) == (if x in charges && x.id !in once then 1 else 0)
            && (x.id in r.once <==> x.id in once || x in charges)
    decreases charges
  {
    if charges != [] {
      var y := charges[0];
      var taken := if Skips(y, once) then once else if y.basis == PerStay then once + {y.id} else once;
      FixedTimes(c, charges[1..], taken, x);
      if x == y {
        assert x !in charges[1..];
      }
    }
  }

  lemma {:induction false} TimesZero(components: seq<Component>, id: string)
    requires forall x :: x in components && x.kind == ChargeAmount ==> x.id != id
    ensures Times(components, id) == 0
  {
    if components != [] {
      TimesZero(components[1..], id);
    }
  }

  lemma {:induction false} NightTimes(c: Context, night: NightFacts, once: set<string>, x: Charge)
    requires PriceNight(c, night, once).Priced?
    requires DistinctIds(night.fixed) && x.basis == PerStay
    requires forall y :: y in night.fixed && y.id == x.id ==> y == x
    requires forall y :: y in night.percentages ==> y.id != x.id
    ensures var r := PriceNight(c, night, once);
            && Times(r.components, x.id) == (if x in night.fixed && x.id !in once then 1 else 0)
            && (x.id in r.once <==> x.id in once || x in night.fixed)
  {
    var a := AccommodationOf(c, night);
    var fixed := ChargeFixed(c, night.fixed, once);
    var last := PercentageComponents(night.percentages, a.amount, fixed.amount);
    AccommodationExact(c, night);
    FixedTimes(c, night.fixed, once, x);
    TimesZero(a.components, x.id);
    forall z | z in last
      ensures z.id != x.id
    {
      var k :| 0 <= k < |last| && last[k] == z;
      assert night.percentages[k] in night.percentages;
    }
    TimesZero(last, x.id);
    SumAppend(a.components + fixed.components, last, IsChargeOf(x.id));
    SumAppend(a.components, fixed.components, IsChargeOf(x.id));
  }

  /** True on the night and on no night from `date` before it. */
  ghost predicate First(applies: Day -> bool, date: Day, night: Day) {
    applies(night) && forall d :: date <= d < night ==> !applies(d)
  }

  function Applies(c: Context, x: Charge): Day -> bool {
    (date: Day) => ChargeApplies(c, date)(x)
  }

  lemma {:induction false} SelectedCharges(c: Context, date: Day, x: Charge)
    requires DistinctIds(c.facts.charges) && x in c.facts.charges && x.basis == PerStay
    ensures var night := SelectorOf(c)(date);
            && DistinctIds(night.fixed)
            && (forall y :: y in night.fixed && y.id == x.id ==> y == x)
            && (forall y :: y in night.percentages ==> y.id != x.id)
            && (x in night.fixed <==> ChargeApplies(c, date)(x))
  {
    var applying := Filter(c.facts.charges, ChargeApplies(c, date));
    FilterKeepsDistinct(c.facts.charges, ChargeApplies(c, date));
    FilterKeepsDistinct(applying, IsFixedCharge());
    assert forall y :: y in c.facts.charges && y.id == x.id ==> y == x;
  }

  /** Each priced night charges `id` once when it applies and was not taken, and then remembers it. */
  ghost predicate TakesOnce(price: Pricer, applies: Day -> bool, id: string) {
    forall d, once :: price(d, once).Priced? ==>
      && Times(price(d, once).components, id) == (if applies(d) && id !in once then 1 else 0)
      && (id in price(d, once).once <==> id in once || applies(d))
  }

  lemma {:induction false} PricerTakesOnce(c: Context, x: Charge)
    requires DistinctIds(c.facts.charges) && x in c.facts.charges && x.basis == PerStay
    ensures TakesOnce(PricerOf(c, SelectorOf(c)), Applies(c, x), x.id)
  {
    var price := PricerOf(c, SelectorOf(c));
    forall d, once | price(d, once).Priced?
      ensures Times(price(d, once).components, x.id)
           == (if Applies(c, x)(d) && x.id !in once then 1 else 0)
      ensures x.id in price(d, once).once <==> x.id in once || Applies(c, x)(d)
    {
      SelectedCharges(c, d, x);
      NightTimes(c, SelectorOf(c)(d), once, x);
    }
  }

  lemma {:induction false} FirstNight(applies: Day -> bool, date: Day)
    ensures First(applies, date, date) == applies(date)
  {
  }

  lemma {:induction false} LaterNight(applies: Day -> bool, date: Day, night: Day)
    requires date < night
    ensures First(applies, date, night) == (!applies(date) && First(applies, date + 1, night))
  {
  }

  /** From `date` on, the charge is on the first night it applies to, unless it was charged before. */
  ghost predicate ChargedFrom(nights: seq<PricedNight>, applies: Day -> bool, id: string, date: Day, once: bool) {
    forall i :: 0 <= i < |nights| ==>
      Times(nights[i].components, id) == if !once && First(applies, date, date + i) then 1 else 0
  }

  lemma {:induction false} ChargedStep(head: PricedNight, rest: seq<PricedNight>, applies: Day -> bool,
      id: string, date: Day, once: bool)
    requires Times(head.components, id) == (if applies(date) && !once then 1 else 0)
    requires ChargedFrom(rest, applies, id, date + 1, once || applies(date))
    ensures ChargedFrom([head] + rest, applies, id, date, once)
  {
    hide First, Times;
    var nights := [head] + rest;
    FirstNight(applies, date);
    forall i | 0 <= i < |nights|
      ensures Times(nights[i].components, id) == if !once && First(applies, date, date + i) then 1 else 0
    {
      if i > 0 {
        assert nights[i] == rest[i - 1];
        assert date + i == date + 1 + (i - 1);
        LaterNight(applies, date, date + i);
      }
    }
  }

  lemma {:induction false} RunTimes(
    c: Context, price: Pricer, applies: Day -> bool, id: string, date: Day, once: set<string>)
    requires TakesOnce(price, applies, id)
    requires RunNights(c, price, date, once).errors == []
    ensures ChargedFrom(RunNights(c, price, date, once).nights, applies, id, date, id in once)
    decreases c.request.endsOn - date
  {
    hide ChargedFrom, Times, First;
    if date < c.request.endsOn {
      var outcome := price(date, once);
      NoErrorsMeansPriced(c, price, date, once);
      RunTimes(c, price, applies, id, date + 1, outcome.once);
      var rest := RunNights(c, price, date + 1, outcome.once).nights;
      ChargedStep(PricedNight(date, outcome.amount, outcome.components), rest, applies, id, date, id in once);
    } else {
      NothingCharged(applies, id, date, id in once);
    }
  }

  lemma {:induction false} NothingCharged(applies: Day -> bool, id: string, date: Day, once: bool)
    ensures ChargedFrom([], applies, id, date, once)
  {
  }

  /** Occurrences of a charge over the nights of a stay. */
  ghost predicate OnceOnFirst(nights: seq<PricedNight>, applies: Day -> bool, id: string, startsOn: Day) {
    forall i :: 0 <= i < |nights| ==>
      Times(nights[i].components, id) == if First(applies, startsOn, startsOn + i) then 1 else 0
  }

  lemma {:induction false} StayTimes(c: Context, price: Pricer, applies: Day -> bool, id: string)
    requires TakesOnce(price, applies, id)
    requires RunNights(c, price, c.request.startsOn, {}).errors == []
    ensures OnceOnFirst(RunNights(c, price, c.request.startsOn, {}).nights, applies, id, c.request.startsOn)
  {
    RunTimes(c, price, applies, id, c.request.startsOn, {});
  }

  /** In a valid result a per-stay charge is on the earliest night it applies to, once, and nowhere else. */
  lemma {:induction false} PerStayChargedOnce(facts: Facts, request: Request, twoDecimals: set<string>, x: Charge)
    returns (c: Context)
    requires Evaluate(facts, request, twoDecimals).valid
    requires DistinctIds(facts.charges) && x in facts.charges && x.basis == PerStay
    ensures c.facts == facts && c.request == request && PlansOf(facts, request) == Some((c.plan, c.root))
    ensures OnceOnFirst(Evaluate(facts, request, twoDecimals).nightlyRates, Applies(c, x), x.id, request.startsOn)
  {
    var price;
    c, price := ValidResultRuns(facts, request, twoDecimals);
    PricerTakesOnce(c, x);
    StayTimes(c, price, Applies(c, x), x.id);
  }
}
