/** The evaluator in the form it runs: a loop over nights, with loops over charges inside. */
module PricingEvaluator {
  import opened Collections
  import opened Calendar
  import opened Money
  import opened PricingModel

  method PriceAccommodation(c: Context, night: NightFacts) returns (r: Accommodation)
    ensures r == AccommodationOf(c, night)
  {
    if night.chosen.None? {
      return NoPrice(MissingBase);
    }
    var chosen, winners := night.chosen.value, night.rules;
    var parsed := chosen.amount;
    if parsed.None? {
      return Unreadable;
    }
    var accommodation := parsed.value;
    var components := [Component(BaseAmount, chosen.id, accommodation)];
    if |winners| > 1 {
      return NoPrice(PriorityConflict);
    }
    if |winners| == 1 {
      var rule, before := winners[0], accommodation;
      var value := rule.value;
      if value.None? {
        return Unreadable;
      }
      accommodation := if rule.percentage
                       then RoundMinor(accommodation * (10000 + value.value), 10000)
                       else accommodation + value.value;
      components := components + [Component(RuleAmount, rule.id, accommodation - before)];
    }
    if c.plan.basis == Derived {
      var before := accommodation;
      var value := c.plan.adjustmentValue;
      if value.None? {
        return Unreadable;
      }
      accommodation := if c.plan.percentage
                       then RoundMinor(accommodation * (10000 + value.value), 10000)
                       else accommodation + value.value * (c.request.adults + c.request.children);
      components := components + [Component(PlanAmount, c.plan.id, accommodation - before)];
    }
    if accommodation < 0 || accommodation > MONEY_LIMIT {
      return NoPrice(AmountInvalid);
    }
    return Accommodation(accommodation, components);
  }

  lemma {:induction false} NothingFixed(c: Context, all: Charged)
    ensures all == Charged(0 + all.amount, [] + all.components, all.once)
  {
    assert [] + all.components == all.components;
  }

  /** One more fixed charge; the end of the list charges nothing. */
  lemma {:induction false} FixedStep(c: Context, charges: seq<Charge>, i: nat, once: set<string>)
    requires i < |charges|
    ensures var x := charges[i];
      var next := if x.basis == PerStay then once + {x.id} else once;
      ChargeFixed(c, charges[i..], once) ==
        if Skips(x, once) then ChargeFixed(c, charges[i + 1..], once)
        else var rest := ChargeFixed(c, charges[i + 1..], next);
          Charged(FixedAmount(c, x) + rest.amount, [ChargeComponent(x, FixedAmount(c, x))] + rest.components, rest.once)
  {
    assert charges[i..][0] == charges[i] && charges[i..][1..] == charges[i + 1..];
  }

  lemma {:induction false} FixedEnds(c: Context, charges: seq<Charge>, once: set<string>)
    ensures ChargeFixed(c, charges[|charges|..], once) == Charged(0, [], once)
  {
  }

  /** The fixed charges of a night; `once` collects the per-stay charges already taken. */
  method TakeFixed(c: Context, charges: seq<Charge>, taken: set<string>) returns (ok: bool, r: Charged)
    ensures ok <==> AllParse(charges)
    ensures ok ==> r == ChargeFixed(c, charges, taken)
  {
    hide ChargeFixed;
    var fixed, components, once := 0, [], taken;
    assert charges[0..] == charges;
    NothingFixed(c, ChargeFixed(c, charges, once));
    for i := 0 to |charges|
      invariant AllParse(charges[..i])
      invariant var rest := ChargeFixed(c, charges[i..], once);
                ChargeFixed(c, charges, taken)
                == Charged(fixed + rest.amount, components + rest.components, rest.once)
    {
      var x := charges[i];
      FixedStep(c, charges, i, once);
      assert charges[..i + 1] == charges[..i] + [x];
      var value := x.value;
      if value.None? {
        return false, Charged(0, [], {});
      }
      var amount := value.value;
      if x.basis == PerAdultNight {
        amount := amount * c.request.adults;
      } else if x.basis == PerPersonNight {
        amount := amount * (c.request.adults + c.request.children);
      } else if x.basis == PerStay {
        if x.id in once {
          continue;
        }
        once := once + {x.id};
      }
      fixed := fixed + amount;
      components := components + [Component(ChargeAmount, x.id, amount)];
    }
    assert charges[..|charges|] == charges;
    FixedEnds(c, charges, once);
    return true, Charged(fixed, components, once);
  }

  method TakePercentages(charges: seq<Charge>, accommodation: int, fixed: int)
    returns (ok: bool, percentages: int, components: seq<Component>)
    ensures ok <==> AllParse(charges)
    ensures ok ==> percentages == Sum(charges, PercentageAmount(accommodation, fixed))
    ensures ok ==> components == PercentageComponents(charges, accommodation, fixed)
  {
    percentages, components := 0, [];
    for i := 0 to |charges|
      invariant AllParse(charges[..i])
      invariant percentages == Sum(charges[..i], PercentageAmount(accommodation, fixed))
      invariant components == PercentageComponents(charges[..i], accommodation, fixed)
    {
      var x := charges[i];
      assert charges[..i + 1] == charges[..i] + [x];
      SumAppend(charges[..i], [x], PercentageAmount(accommodation, fixed));
      var value := x.value;
      if value.None? {
        return false, 0, [];
      }
      var amount := RoundMinor(
        (accommodation + if x.basis == PercentageSubtotal then fixed else 0) * value.value, 10000);
      percentages := percentages + amount;
      components := components + [Component(ChargeAmount, x.id, amount)];
    }
    assert charges[..|charges|] == charges;
    ok := true;
  }

  method PriceOneNight(c: Context, night: NightFacts, once: set<string>) returns (r: NightOutcome)
    ensures r == PriceNight(c, night, once)
  {
    var stay := PriceAccommodation(c, night);
    match stay
    case NoPrice(code) => return Failed(code, once);
    case Unreadable => return Thrown;
    case Accommodation(accommodation, components) =>
      var fixedOk, fixed := TakeFixed(c, night.fixed, once);
      if !fixedOk {
        return Thrown;
      }
      var ok, percentages, charged := TakePercentages(night.percentages, accommodation, fixed.amount);
      if !ok {
        return Thrown;
      }
      var amount := accommodation + fixed.amount + percentages;
      if amount < 0 || amount > MONEY_LIMIT {
        return Failed(AmountInvalid, fixed.once);
      }
      return Priced(amount, components + fixed.components + charged, fixed.once);
  }

  lemma {:induction false} JoinAssociative(a: Run, b: Run, c: Run)
    ensures Join(Join(a, b), c) == Join(a, Join(b, c))
  {
    assert a.errors + b.errors + c.errors == a.errors + (b.errors + c.errors);
    assert a.nights + b.nights + c.nights == a.nights + (b.nights + c.nights);
  }

  /** `price` is the pricing of one night, kept closed so that the loop need not look inside. */
  ghost predicate PricesLike(price: Pricer, c: Context, select: Selector) {
    forall date, once {:trigger PriceNight(c, select(date), once)} ::
      price(date, once) == PriceNight(c, select(date), once)
  }

  method PriceOn(c: Context, select: Selector, ghost price: Pricer, date: Day, once: set<string>)
    returns (r: NightOutcome)
    requires PricesLike(price, c, select)
    ensures r == price(date, once)
  {
    r := PriceOneNight(c, select(date), once);
  }

  lemma {:induction false} JoinNothing(before: Run, after: Run)
    ensures Join(Run([], 0, []), after) == after && Join(before, Run([], 0, [])) == before
  {
    assert before.errors + [] == before.errors && before.nights + [] == before.nights;
  }

  lemma {:induction false} JoinParts(a: Run, b: Run)
    ensures Join(a, b) == Run(a.errors + b.errors, a.total + b.total, a.nights + b.nights)
  {
  }

  lemma {:induction false} RunStep(c: Context, price: Pricer, date: Day, once: set<string>)
    requires date < c.request.endsOn
    ensures var outcome := price(date, once);
      RunNights(c, price, date, once) == if outcome.Thrown? then NightRun(c, date, outcome)
        else Join(NightRun(c, date, outcome), RunNights(c, price, date + 1, outcome.once))
  {
  }

  lemma {:induction false} RunEnds(c: Context, price: Pricer, once: set<string>)
    ensures RunNights(c, price, c.request.endsOn, once) == Run([], 0, [])
  {
  }

  method PriceNights(c: Context, select: Selector, ghost price: Pricer)
    returns (errors: seq<Failure>, total: int, nightlyRates: seq<PricedNight>)
    requires c.request.startsOn <= c.request.endsOn
    requires PricesLike(price, c, select)
    ensures Run(errors, total, nightlyRates) == RunNights(c, price, c.request.startsOn, {})
  {
    hide RunNights, Join, PricesLike;
    errors, total, nightlyRates := [], 0, [];
    var once: set<string> := {};
    JoinNothing(Run(errors, total, nightlyRates), RunNights(c, price, c.request.startsOn, once));
    ghost var all := RunNights(c, price, c.request.startsOn, {});
    for date := c.request.startsOn to c.request.endsOn
      invariant all == Join(Run(errors, total, nightlyRates), RunNights(c, price, date, once))
    {
      ghost var before, once0 := Run(errors, total, nightlyRates), once;
      if !Published(c, date) {
        errors := errors + [Failure(PlanUnavailable, Some(date))];
      }
      var outcome := PriceOn(c, select, price, date, once);
      match outcome {
        case Thrown =>
          errors := errors + [Failure(AmountInvalid, None)];
        case Failed(code, taken) =>
          errors := errors + [Failure(code, Some(date))];
          once := taken;
        case Priced(amount, components, taken) =>
          total := total + amount;
          nightlyRates := nightlyRates + [PricedNight(date, amount, components)];
          once := taken;
      }
      assert Run(errors, total, nightlyRates) == Join(before, NightRun(c, date, outcome)) by {
        JoinParts(before, NightRun(c, date, outcome));
      }
      RunStep(c, price, date, once0);
      if outcome.Thrown? {
        return;
      }
      JoinAssociative(before, NightRun(c, date, outcome), RunNights(c, price, date + 1, once));
    }
    RunEnds(c, price, once);
    JoinNothing(Run(errors, total, nightlyRates), Run(errors, total, nightlyRates));
  }

  method EvaluatePricing(facts: Facts, request: Request, twoDecimals: set<string>) returns (r: Result)
    ensures r == Evaluate(facts, request, twoDecimals)
  {
    if request.endsOn <= request.startsOn || request.endsOn - request.startsOn > 3660 {
      return Refused(Invalid);
    }
    var plans := PlansOf(facts, request);
    if plans.None? {
      return Refused(PlanInvalid);
    }
    var c := Context(facts, request, plans.value.0, plans.value.1);
    var errors: seq<Failure> := [];
    if !OccupancyValid(request) {
      errors := errors + [Failure(Occupancy, None)];
    }
    if c.plan.currency !in twoDecimals {
      errors := errors + [Failure(CurrencyUnsupported, None)];
    }
    if !PlanAvailable(c.root, request) {
      errors := errors + [Failure(PlanUnavailable, None)];
    }
    if c.plan.id != c.root.id && !PlanAvailable(c.plan, request) {
      errors := errors + [Failure(PlanUnavailable, None)];
    }
    assert errors == StayErrors(c, twoDecimals);
    var nightErrors, total, nightlyRates := PriceNights(c, SelectorOf(c), PricerOf(c, SelectorOf(c)));
    errors := errors + nightErrors;
    if total > MONEY_LIMIT {
      errors := errors + [Failure(AmountInvalid, None)];
    }
    if errors == [] {
      return Result(true, [], Some(Total(total, c.plan.currency)), nightlyRates);
    }
    return Result(false, errors, None, []);
  }
}
