/** Raising base prices never lowers the total of a valid stay. */
module PricingMonotone {
  import opened Collections
  import opened Calendar
  import opened Money
  import opened PricingModel
  import opened PricingProperties

  ghost predicate AtMostAs(a: Amount, b: Amount) {
    a.Some? && b.Some? ==> a.value <= b.value
  }

  // ---------------------------------------------------------------- the arithmetic steps

  /** A percentage step keeps the order of amounts exactly when its multiplier is not negative. */
  lemma {:induction false} PercentageMonotoneIff(value: int, times: int)
    ensures (forall a, b :: a <= b ==> Adjust(a, true, value, times) <= Adjust(b, true, value, times))
            <==> value >= -10000
  {
    if value >= -10000 {
      forall a, b | a <= b
        ensures Adjust(a, true, value, times) <= Adjust(b, true, value, times)
      {
        AdjustMonotone(a, b, true, value, times);
      }
    } else {
      assert Adjust(0, true, value, times) == 0;
      var m := -(10000 + value);
      assert (10000 * m + 5000) / 10000 == m;
      assert 10000 * (10000 + value) == -(10000 * m);
      assert Adjust(10000, true, value, times) == -m;
    }
  }

  lemma {:induction false} AdjustMonotone(a: int, b: int, percentage: bool, value: int, times: int)
    requires a <= b && (percentage ==> value >= -10000)
    ensures Adjust(a, percentage, value, times) <= Adjust(b, percentage, value, times)
  {
    if percentage {
      MulMonotone(a, b, 10000 + value);
      RoundMinorMonotone(a * (10000 + value), b * (10000 + value), 10000);
    }
  }

  lemma {:induction false} SumMonotone(xs: seq<Charge>, f: Charge -> int, g: Charge -> int)
    requires forall x :: x in xs ==> f(x) <= g(x)
    ensures Sum(xs, f) <= Sum(xs, g)
  {
    if xs != [] {
      SumMonotone(xs[1..], f, g);
    }
  }

  // ---------------------------------------------------------------- raised facts

  ghost predicate RaisedBase(xs: seq<BasePrice>, ys: seq<BasePrice>) {
    |xs| == |ys| && forall i :: 0 <= i < |xs| ==>
      ys[i] == xs[i].(amount := ys[i].amount) && AtMostAs(xs[i].amount, ys[i].amount)
  }

  ghost predicate RaisedDaily(xs: seq<DailyPrice>, ys: seq<DailyPrice>) {
    |xs| == |ys| && forall i :: 0 <= i < |xs| ==>
      ys[i] == xs[i].(amount := ys[i].amount) && AtMostAs(xs[i].amount, ys[i].amount)
  }

  ghost predicate RaisedOverrides(xs: seq<RoomOverride>, ys: seq<RoomOverride>) {
    |xs| == |ys| && forall i :: 0 <= i < |xs| ==>
      ys[i] == xs[i].(amount := ys[i].amount) && AtMostAs(xs[i].amount, ys[i].amount)
  }

  /** The same facts with any base prices, daily prices and room overrides raised. */
  ghost predicate Raised(f: Facts, g: Facts) {
    && g.plans == f.plans && g.rules == f.rules && g.charges == f.charges
    && RaisedBase(f.base, g.base) && RaisedDaily(f.daily, g.daily) && RaisedOverrides(f.roomOverrides, g.roomOverrides)
  }

  /** No percentage multiplier or percentage charge is negative. */
  ghost predicate NonNegativePercentages(f: Facts) {
    && (forall r :: r in f.rules && r.percentage && r.value.Some? ==> r.value.value >= -10000)
    && (forall p :: p in f.plans && p.percentage && p.adjustmentValue.Some? ==> p.adjustmentValue.value >= -10000)
    && (forall x :: x in f.charges && IsPercentage(x) && x.value.Some? ==> x.value.value >= 0)
  }

  /** The same source was chosen for the night, at a price that is not lower. */
  ghost predicate RaisedChosen(a: Option<Chosen>, b: Option<Chosen>) {
    a.Some? == b.Some? && (a.Some? ==> a.value.id == b.value.id && AtMostAs(a.value.amount, b.value.amount))
  }

  lemma {:induction false} RaisedApplies(x: BasePrice, y: BasePrice, planId: string, roomTypeId: string, date: Day)
    requires y == x.(amount := y.amount)
    ensures BaseApplies(planId, roomTypeId, date)(y) == BaseApplies(planId, roomTypeId, date)(x)
  {
  }

  lemma {:induction false} FilterRaised(xs: seq<BasePrice>, ys: seq<BasePrice>, planId: string,
      roomTypeId: string, date: Day)
    requires RaisedBase(xs, ys)
    ensures RaisedBase(Filter(xs, BaseApplies(planId, roomTypeId, date)), Filter(ys, BaseApplies(planId, roomTypeId, date)))
  {
    if xs != [] {
      hide BaseApplies;
      FilterRaised(xs[1..], ys[1..], planId, roomTypeId, date);
      RaisedApplies(xs[0], ys[0], planId, roomTypeId, date);
    }
  }

  lemma {:induction false} ForemostRaised(xs: seq<BasePrice>, ys: seq<BasePrice>)
    requires RaisedBase(xs, ys)
    ensures var a, b := Foremost(xs), Foremost(ys);
            a.Some? == b.Some? &&
            (a.Some? ==> b.value == a.value.(amount := b.value.amount) && AtMostAs(a.value.amount, b.value.amount))
  {
    if xs != [] {
      ForemostRaised(xs[1..], ys[1..]);
    }
  }

  lemma {:induction false} DailyRaised(xs: seq<DailyPrice>, ys: seq<DailyPrice>, planId: string,
      roomTypeId: string, date: Day)
    requires RaisedDaily(xs, ys)
    ensures var a, b := Find(xs, DailyApplies(planId, roomTypeId, date)), Find(ys, DailyApplies(planId, roomTypeId, date));
            a.Some? == b.Some? && (a.Some? ==> AtMostAs(a.value.amount, b.value.amount))
  {
    if xs != [] {
      DailyRaised(xs[1..], ys[1..], planId, roomTypeId, date);
    }
  }

  lemma {:induction false} OverrideRaised(xs: seq<RoomOverride>, ys: seq<RoomOverride>, planId: string, roomId: string)
    requires RaisedOverrides(xs, ys)
    ensures var a, b := Find(xs, OverrideApplies(planId, roomId)), Find(ys, OverrideApplies(planId, roomId));
            a.Some? == b.Some? && (a.Some? ==> AtMostAs(a.value.amount, b.value.amount))
  {
    if xs != [] {
      OverrideRaised(xs[1..], ys[1..], planId, roomId);
    }
  }

  lemma {:induction false} ChosenRaised(f: Facts, g: Facts, planId: string, roomTypeId: string, date: Day,
      roomId: Option<string>)
    requires Raised(f, g)
    ensures RaisedChosen(ResolveBasePrice(f, planId, roomTypeId, date, roomId),
                         ResolveBasePrice(g, planId, roomTypeId, date, roomId))
  {
    if roomId.Some? {
      OverrideRaised(f.roomOverrides, g.roomOverrides, planId, roomId.value);
    }
    DailyRaised(f.daily, g.daily, planId, roomTypeId, date);
    FilterRaised(f.base, g.base, planId, roomTypeId, date);
    ForemostRaised(Filter(f.base, BaseApplies(planId, roomTypeId, date)),
                   Filter(g.base, BaseApplies(planId, roomTypeId, date)));
  }

  // ---------------------------------------------------------------- one night

  /** A night whose base price was raised and whose percentages are not negative. */
  ghost predicate RaisedNight(c: Context, a: NightFacts, b: NightFacts) {
    && RaisedChosen(a.chosen, b.chosen)
    && b.rules == a.rules && b.fixed == a.fixed && b.percentages == a.percentages
    && (forall r :: r in a.rules && r.percentage && r.value.Some? ==> r.value.value >= -10000)
    && (c.plan.percentage && c.plan.adjustmentValue.Some? ==> c.plan.adjustmentValue.value >= -10000)
    && (forall x :: x in a.percentages ==> ValueOf(x) >= 0)
  }

  lemma {:induction false} AccommodationMonotone(c: Context, d: Context, a: NightFacts, b: NightFacts)
    requires d == c.(facts := d.facts) && RaisedNight(c, a, b)
    requires AccommodationOf(c, a).Accommodation? && AccommodationOf(d, b).Accommodation?
    ensures AccommodationOf(c, a).amount <= AccommodationOf(d, b).amount
  {
    var low, high := a.chosen.value.amount.value, b.chosen.value.amount.value;
    if a.rules != [] {
      AdjustMonotone(low, high, a.rules[0].percentage, a.rules[0].value.value, 1);
    }
    if c.plan.basis == Derived {
      AdjustMonotone(AfterRules(low, a.rules).value, AfterRules(high, a.rules).value, c.plan.percentage,
                     c.plan.adjustmentValue.value, c.request.adults + c.request.children);
    }
  }

  lemma {:induction false} FixedSame(c: Context, d: Context, charges: seq<Charge>, once: set<string>)
    requires d == c.(facts := d.facts)
    ensures ChargeFixed(c, charges, once) == ChargeFixed(d, charges, once)
    decreases charges
  {
    if charges != [] {
      var x := charges[0];
      FixedSame(c, d, charges[1..],
        if Skips(x, once) then once else if x.basis == PerStay then once + {x.id} else once);
    }
  }

  lemma {:induction false} PercentagesMonotone(charges: seq<Charge>, low: int, high: int, fixed: int)
    requires low <= high && forall x :: x in charges ==> ValueOf(x) >= 0
    ensures Sum(charges, PercentageAmount(low, fixed)) <= Sum(charges, PercentageAmount(high, fixed))
  {
    forall x | x in charges
      ensures PercentageAmount(low, fixed)(x) <= PercentageAmount(high, fixed)(x)
    {
      var extra := if x.basis == PercentageSubtotal then fixed else 0;
      MulMonotone(low + extra, high + extra, ValueOf(x));
      RoundMinorMonotone((low + extra) * ValueOf(x), (high + extra) * ValueOf(x), 10000);
    }
    SumMonotone(charges, PercentageAmount(low, fixed), PercentageAmount(high, fixed));
  }

  lemma {:induction false} NightMonotone(c: Context, d: Context, a: NightFacts, b: NightFacts, once: set<string>)
    requires d == c.(facts := d.facts) && RaisedNight(c, a, b)
    requires PriceNight(c, a, once).Priced? && PriceNight(d, b, once).Priced?
    ensures PriceNight(c, a, once).amount <= PriceNight(d, b, once).amount
    ensures PriceNight(c, a, once).once == PriceNight(d, b, once).once
  {
    AccommodationMonotone(c, d, a, b);
    FixedSame(c, d, a.fixed, once);
    PercentagesMonotone(a.percentages, AccommodationOf(c, a).amount, AccommodationOf(d, b).amount,
                        ChargeFixed(c, a.fixed, once).amount);
  }

  // ---------------------------------------------------------------- the stay

  ghost predicate CheaperPricer(price: Pricer, other: Pricer) {
    forall date, once :: price(date, once).Priced? && other(date, once).Priced? ==>
      price(date, once).amount <= other(date, once).amount && price(date, once).once == other(date, once).once
  }

  lemma {:induction false} RunMonotone(c: Context, d: Context, price: Pricer, other: Pricer, date: Day,
      once: set<string>)
    requires d == c.(facts := d.facts) && CheaperPricer(price, other)
    requires RunNights(c, price, date, once).errors == [] && RunNights(d, other, date, once).errors == []
    ensures RunNights(c, price, date, once).total <= RunNights(d, other, date, once).total
    decreases c.request.endsOn - date
  {
    if date < c.request.endsOn {
      NoErrorsMeansPriced(c, price, date, once);
      NoErrorsMeansPriced(d, other, date, once);
      RunMonotone(c, d, price, other, date + 1, price(date, once).once);
    }
  }

  lemma {:induction false} SelectedRaised(c: Context, d: Context, date: Day)
    requires d == c.(facts := d.facts) && Raised(c.facts, d.facts) && NonNegativePercentages(c.facts)
    requires c.plan in c.facts.plans
    ensures RaisedNight(c, SelectorOf(c)(date), SelectorOf(d)(date))
  {
    ChosenRaised(c.facts, d.facts, c.root.id, c.request.roomTypeId, date, c.request.roomId);
    FilterCongruent(c.facts.rules, RuleApplies(c, date), RuleApplies(d, date));
    FilterCongruent(c.facts.charges, ChargeApplies(c, date), ChargeApplies(d, date));
    assert forall r :: r in TopRules(c, date) ==> r in c.facts.rules;
    hide Raised, Filter, Highest, RuleApplies, ChargeApplies;
  }

  lemma {:induction false} PricersRaised(c: Context, d: Context)
    requires d == c.(facts := d.facts) && Raised(c.facts, d.facts) && NonNegativePercentages(c.facts)
    requires c.plan in c.facts.plans
    ensures CheaperPricer(PricerOf(c, SelectorOf(c)), PricerOf(d, SelectorOf(d)))
  {
    var price, other := PricerOf(c, SelectorOf(c)), PricerOf(d, SelectorOf(d));
    forall date, once | price(date, once).Priced? && other(date, once).Priced?
      ensures price(date, once).amount <= other(date, once).amount && price(date, once).once == other(date, once).once
    {
      SelectedRaised(c, d, date);
      NightMonotone(c, d, SelectorOf(c)(date), SelectorOf(d)(date), once);
    }
  }

  /** With no negative percentage, raising any set of base prices never lowers a valid total. */
  lemma {:induction false} RaisingNeverLowers(f: Facts, g: Facts, request: Request, twoDecimals: set<string>)
    requires Raised(f, g) && NonNegativePercentages(f)
    requires Evaluate(f, request, twoDecimals).valid && Evaluate(g, request, twoDecimals).valid
    ensures Evaluate(f, request, twoDecimals).total.value.amount <= Evaluate(g, request, twoDecimals).total.value.amount
  {
    var c, price := ValidResultRuns(f, request, twoDecimals);
    var d, other := ValidResultRuns(g, request, twoDecimals);
    PricersRaised(c, d);
    RunMonotone(c, d, price, other, request.startsOn, {});
  }
}
