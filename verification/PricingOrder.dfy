/** The price of a stay does not depend on the order in which the saved facts are listed. */
module PricingOrder {
  import opened Collections
  import opened Calendar
  import opened Text
  import opened PricingModel
  import opened PricingProperties

  // ---------------------------------------------------------------- the base-price order is total

  lemma {:induction false} PrecedesSplits(a: BasePrice, b: BasePrice, c: BasePrice)
    requires Precedes(a, c)
    ensures Precedes(a, b) || Precedes(b, c)
    ensures !Precedes(c, a)
  {
    LessTotal(a.id, b.id);
    LessTotal(b.id, c.id);
    LessTotal(a.id, c.id);
    if Less(c.id, a.id) && Less(a.id, b.id) {
      LessTransitive(c.id, a.id, b.id);
    }
  }

  lemma {:induction false} PrecedesTotal(a: BasePrice, b: BasePrice)
    requires a.id != b.id
    ensures Precedes(a, b) || Precedes(b, a)
  {
    LessTotal(a.id, b.id);
  }

  /** Nothing precedes the foremost price. */
  lemma {:induction false} ForemostUnpreceded(prices: seq<BasePrice>)
    ensures Foremost(prices).None? <==> prices == []
    ensures Foremost(prices).Some? ==>
              && Foremost(prices).value in prices
              && forall q :: q in prices ==> !Precedes(q, Foremost(prices).value)
  {
    if prices != [] {
      ForemostUnpreceded(prices[1..]);
      var rest := Foremost(prices[1..]);
      forall q | q in prices
        ensures !Precedes(q, Foremost(prices).value)
      {
        assert q == prices[0] || q in prices[1..];
        if Precedes(q, Foremost(prices).value) {
          PrecedesSplits(q, if rest.Some? then rest.value else q, Foremost(prices).value);
        }
        if rest.Some? && Precedes(rest.value, prices[0]) {
          PrecedesSplits(rest.value, rest.value, prices[0]);
        }
      }
    }
  }

  lemma {:induction false} ForemostPermutes(xs: seq<BasePrice>, ys: seq<BasePrice>)
    requires multiset(xs) == multiset(ys)
    requires forall x, y :: x in xs && y in xs && x.id == y.id ==> x == y
    ensures Foremost(xs) == Foremost(ys)
  {
    ForemostUnpreceded(xs);
    ForemostUnpreceded(ys);
    assert forall x :: x in xs <==> x in multiset(xs);
    assert forall x :: x in ys <==> x in multiset(ys);
    if xs != [] {
      assert xs[0] in ys;
      var p, q := Foremost(xs).value, Foremost(ys).value;
      if p.id != q.id {
        PrecedesTotal(p, q);
      }
    }
  }

  // ---------------------------------------------------------------- facts as sets

  /** The same facts, listed in any order. */
  ghost predicate SameFacts(f: Facts, g: Facts) {
    && multiset(f.plans) == multiset(g.plans)
    && multiset(f.base) == multiset(g.base)
    && multiset(f.daily) == multiset(g.daily)
    && multiset(f.rules) == multiset(g.rules)
    && multiset(f.charges) == multiset(g.charges)
    && multiset(f.roomOverrides) == multiset(g.roomOverrides)
  }

  predicate SameKey(x: DailyPrice, y: DailyPrice) {
    x.ratePlanId == y.ratePlanId && x.roomTypeId == y.roomTypeId && x.date == y.date
  }

  predicate SameRoom(x: RoomOverride, y: RoomOverride) {
    x.ratePlanId == y.ratePlanId && x.roomId == y.roomId
  }

  /** Ids and keys identify the facts. */
  ghost predicate UniqueFacts(f: Facts) {
    && (forall x, y :: x in f.plans && y in f.plans && x.id == y.id ==> x == y)
    && (forall x, y :: x in f.base && y in f.base && x.id == y.id ==> x == y)
    && (forall x, y :: x in f.daily && y in f.daily && SameKey(x, y) ==> x == y)
    && (forall x, y :: x in f.roomOverrides && y in f.roomOverrides && SameRoom(x, y) ==> x == y)
    && DistinctIds(f.charges)
  }

  lemma {:induction false} DistinctOnce(charges: seq<Charge>, x: Charge)
    requires DistinctIds(charges)
    ensures multiset(charges)[x] <= 1
  {
    if charges != [] {
      DistinctOnce(charges[1..], x);
      assert charges == [charges[0]] + charges[1..];
      if x == charges[0] {
        assert forall k :: 0 <= k < |charges[1..]| ==> charges[1..][k].id == charges[k + 1].id != x.id;
        assert x !in charges[1..];
        assert x !in multiset(charges[1..]);
      }
    }
  }

  lemma {:induction false} DistinctPermutes(xs: seq<Charge>, ys: seq<Charge>)
    requires multiset(xs) == multiset(ys) && DistinctIds(xs)
    ensures DistinctIds(ys)
  {
    forall i, j | 0 <= i < j < |ys|
      ensures ys[i].id != ys[j].id
    {
      assert ys[i] in multiset(xs) && ys[j] in multiset(xs);
      DistinctOnce(xs, ys[i]);
      assert ys == ys[..i] + [ys[i]] + ys[i + 1..j] + [ys[j]] + ys[j + 1..];
      assert multiset(ys)[ys[j]] >= multiset{ys[i], ys[j]}[ys[j]];
    }
  }

  // ---------------------------------------------------------------- one night

  /** Night facts that differ only in the order of equal-priority rules and of charges. */
  ghost predicate SameNight(a: NightFacts, b: NightFacts) {
    && a.chosen == b.chosen
    && multiset(a.rules) == multiset(b.rules)
    && multiset(a.fixed) == multiset(b.fixed)
    && multiset(a.percentages) == multiset(b.percentages)
    && DistinctIds(a.fixed) && DistinctIds(b.fixed)
  }

  lemma {:induction false} TopRulesPermute(c: Context, d: Context, date: Day)
    requires d == c.(facts := d.facts) && multiset(c.facts.rules) == multiset(d.facts.rules)
    ensures multiset(TopRules(c, date)) == multiset(TopRules(d, date))
  {
    var xs, ys := Filter(c.facts.rules, RuleApplies(c, date)), Filter(d.facts.rules, RuleApplies(d, date));
    FilterCongruent(d.facts.rules, RuleApplies(c, date), RuleApplies(d, date));
    FilterPermutes(c.facts.rules, d.facts.rules, RuleApplies(c, date));
    HighestPermutes(xs, ys, Priority());
  }

  lemma {:induction false} ChargesPermute(c: Context, d: Context, date: Day)
    requires d == c.(facts := d.facts) && multiset(c.facts.charges) == multiset(d.facts.charges)
    requires DistinctIds(c.facts.charges)
    ensures multiset(Fixed(c, date)) == multiset(Fixed(d, date))
    ensures multiset(Percentages(c, date)) == multiset(Percentages(d, date))
    ensures DistinctIds(Fixed(c, date)) && DistinctIds(Fixed(d, date))
  {
    var xs, ys := Filter(c.facts.charges, ChargeApplies(c, date)), Filter(d.facts.charges, ChargeApplies(d, date));
    FilterCongruent(d.facts.charges, ChargeApplies(c, date), ChargeApplies(d, date));
    FilterPermutes(c.facts.charges, d.facts.charges, ChargeApplies(c, date));
    FilterPermutes(xs, ys, IsPercentageCharge());
    FilterPermutes(xs, ys, IsFixedCharge());
    FilterKeepsDistinct(c.facts.charges, ChargeApplies(c, date));
    FilterKeepsDistinct(xs, IsFixedCharge());
    DistinctPermutes(Fixed(c, date), Fixed(d, date));
  }

  lemma {:induction false} ChosenPermutes(f: Facts, g: Facts, planId: string, roomTypeId: string, date: Day,
      roomId: Option<string>)
    requires SameFacts(f, g) && UniqueFacts(f)
    ensures ResolveBasePrice(f, planId, roomTypeId, date, roomId) == ResolveBasePrice(g, planId, roomTypeId, date, roomId)
  {
    if roomId.Some? {
      FindPermutes(f.roomOverrides, g.roomOverrides, OverrideApplies(planId, roomId.value));
    }
    FindPermutes(f.daily, g.daily, DailyApplies(planId, roomTypeId, date));
    FilterPermutes(f.base, g.base, BaseApplies(planId, roomTypeId, date));
    ForemostPermutes(Filter(f.base, BaseApplies(planId, roomTypeId, date)),
                     Filter(g.base, BaseApplies(planId, roomTypeId, date)));
  }

  lemma {:induction false} NightFactsPermute(c: Context, d: Context, date: Day)
    requires d == c.(facts := d.facts) && SameFacts(c.facts, d.facts) && UniqueFacts(c.facts)
    ensures SameNight(SelectorOf(c)(date), SelectorOf(d)(date))
  {
    ChosenPermutes(c.facts, d.facts, c.root.id, c.request.roomTypeId, date, c.request.roomId);
    TopRulesPermute(c, d, date);
    ChargesPermute(c, d, date);
  }

  /** What a fixed charge contributes when its id was or was not taken before the night. */
  function Contribution(c: Context, once: set<string>): Charge -> int {
    (x: Charge) => if Skips(x, once) then 0 else FixedAmount(c, x)
  }

  function PerStayIds(charges: seq<Charge>): set<string> {
    set x | x in charges && x.basis == PerStay :: x.id
  }

  /** Taking the first charge changes nothing for the others, whose ids differ. */
  lemma {:induction false} ContributionsKept(c: Context, charges: seq<Charge>, once: set<string>, taken: set<string>)
    requires DistinctIds(charges) && charges != []
    requires taken == once || taken == once + {charges[0].id}
    ensures Sum(charges[1..], Contribution(c, taken)) == Sum(charges[1..], Contribution(c, once))
  {
    var rest := charges[1..];
    forall y | y in rest
      ensures Contribution(c, taken)(y) == Contribution(c, once)(y)
    {
      var k :| 0 <= k < |rest| && rest[k] == y;
      assert charges[k + 1] == y;
    }
    SumCongruent(rest, Contribution(c, taken), Contribution(c, once));
  }

  /** With distinct ids the order in which fixed charges are taken does not matter. */
  lemma {:induction false} FixedClosedForm(c: Context, charges: seq<Charge>, once: set<string>)
    requires DistinctIds(charges)
    ensures ChargeFixed(c, charges, once).amount == Sum(charges, Contribution(c, once))
    ensures ChargeFixed(c, charges, once).once == once + PerStayIds(charges)
    decreases charges
  {
    if charges != [] {
      var x, rest := charges[0], charges[1..];
      var taken := if Skips(x, once) then once else if x.basis == PerStay then once + {x.id} else once;
      FixedClosedForm(c, rest, taken);
      ContributionsKept(c, charges, once, taken);
      assert PerStayIds(charges) == PerStayIds(rest) + if x.basis == PerStay then {x.id} else {};
    }
  }

  /** Outcomes that differ at most in the order of components. */
  ghost predicate SameOutcome(a: NightOutcome, b: NightOutcome) {
    match a
    case Thrown => b.Thrown?
    case Failed(code, once) => b == Failed(code, once)
    case Priced(amount, components, once) => b.Priced? && b.amount == amount && b.once == once
  }

  lemma {:induction false} SmallPermutation(xs: seq<Adjustment>, ys: seq<Adjustment>)
    requires multiset(xs) == multiset(ys)
    ensures |xs| == |ys|
    ensures |xs| <= 1 ==> xs == ys
  {
    assert |multiset(xs)| == |xs| && |multiset(ys)| == |ys|;
    if |xs| == 1 {
      assert xs[0] in multiset(ys);
    }
  }

  lemma {:induction false} FixedPermute(c: Context, d: Context, xs: seq<Charge>, ys: seq<Charge>, once: set<string>)
    requires d == c.(facts := d.facts) && multiset(xs) == multiset(ys) && DistinctIds(xs) && DistinctIds(ys)
    ensures ChargeFixed(c, xs, once).amount == ChargeFixed(d, ys, once).amount
    ensures ChargeFixed(c, xs, once).once == ChargeFixed(d, ys, once).once
  {
    assert forall x :: x in xs <==> x in multiset(xs);
    assert forall x :: x in ys <==> x in multiset(ys);
    FixedClosedForm(c, xs, once);
    FixedClosedForm(d, ys, once);
    SumCongruent(ys, Contribution(c, once), Contribution(d, once));
    SumPermutes(xs, ys, Contribution(c, once));
    assert PerStayIds(xs) == PerStayIds(ys);
  }

  lemma {:induction false} ParsePermutes(xs: seq<Charge>, ys: seq<Charge>)
    requires multiset(xs) == multiset(ys)
    ensures AllParse(xs) == AllParse(ys)
  {
    assert forall x :: x in xs <==> x in multiset(xs);
    assert forall x :: x in ys <==> x in multiset(ys);
  }

  lemma {:induction false} AccommodationPermutes(c: Context, d: Context, a: NightFacts, b: NightFacts)
    requires d == c.(facts := d.facts) && SameNight(a, b)
    ensures AccommodationOf(c, a) == AccommodationOf(d, b)
  {
    SmallPermutation(a.rules, b.rules);
  }

  lemma {:induction false} NightPermutes(c: Context, d: Context, a: NightFacts, b: NightFacts, once: set<string>)
    requires d == c.(facts := d.facts) && SameNight(a, b)
    ensures SameOutcome(PriceNight(c, a, once), PriceNight(d, b, once))
  {
    AccommodationPermutes(c, d, a, b);
    ParsePermutes(a.fixed, b.fixed);
    ParsePermutes(a.percentages, b.percentages);
    FixedPermute(c, d, a.fixed, b.fixed, once);
    var stay := AccommodationOf(c, a);
    if stay.Accommodation? {
      SumPermutes(a.percentages, b.percentages,
                  PercentageAmount(stay.amount, ChargeFixed(c, a.fixed, once).amount));
    }
  }

  // ---------------------------------------------------------------- the stay

  ghost predicate SamePricer(price: Pricer, other: Pricer) {
    forall date, once :: SameOutcome(price(date, once), other(date, once))
  }

  /** Runs with the same errors, total, dates and amounts. */
  ghost predicate SameRun(a: Run, b: Run) {
    && a.errors == b.errors && a.total == b.total && |a.nights| == |b.nights|
    && forall i :: 0 <= i < |a.nights| ==>
         a.nights[i].date == b.nights[i].date && a.nights[i].amount == b.nights[i].amount
  }

  lemma {:induction false} RunPermutes(c: Context, d: Context, price: Pricer, other: Pricer, date: Day,
      once: set<string>)
    requires d == c.(facts := d.facts) && SamePricer(price, other)
    ensures SameRun(RunNights(c, price, date, once), RunNights(d, other, date, once))
    decreases c.request.endsOn - date
  {
    if date < c.request.endsOn {
      var a, b := price(date, once), other(date, once);
      assert SameOutcome(a, b);
      if !a.Thrown? {
        RunPermutes(c, d, price, other, date + 1, a.once);
      }
    }
  }

  lemma {:induction false} PricersPermute(c: Context, d: Context)
    requires d == c.(facts := d.facts) && SameFacts(c.facts, d.facts) && UniqueFacts(c.facts)
    ensures SamePricer(PricerOf(c, SelectorOf(c)), PricerOf(d, SelectorOf(d)))
  {
    forall date, once
      ensures SameOutcome(PricerOf(c, SelectorOf(c))(date, once), PricerOf(d, SelectorOf(d))(date, once))
    {
      NightFactsPermute(c, d, date);
      NightPermutes(c, d, SelectorOf(c)(date), SelectorOf(d)(date), once);
    }
  }

  lemma {:induction false} PlansPermute(f: Facts, g: Facts, request: Request)
    requires SameFacts(f, g) && UniqueFacts(f)
    ensures PlansOf(f, request) == PlansOf(g, request)
  {
    FindPermutes(f.plans, g.plans, HasId(request.ratePlanId));
    var plan := Find(f.plans, HasId(request.ratePlanId));
    if plan.Some? && plan.value.basePlanId.Some? {
      FindPermutes(f.plans, g.plans, HasId(plan.value.basePlanId.value));
    }
  }

  /** Listing the same facts in another order changes neither validity, nor the errors, nor the total,
      nor any night's amount. */
  lemma {:induction false} OrderDoesNotMatter(f: Facts, g: Facts, request: Request, twoDecimals: set<string>)
    requires SameFacts(f, g) && UniqueFacts(f)
    ensures var r, s := Evaluate(f, request, twoDecimals), Evaluate(g, request, twoDecimals);
            && r.valid == s.valid && r.errors == s.errors && r.total == s.total
            && |r.nightlyRates| == |s.nightlyRates|
            && forall i :: 0 <= i < |r.nightlyRates| ==>
                 r.nightlyRates[i].date == s.nightlyRates[i].date && r.nightlyRates[i].amount == s.nightlyRates[i].amount
  {
    hide RunNights, PricerOf, SelectorOf, PlansOf, SameFacts, UniqueFacts;
    PlansPermute(f, g, request);
    var plans := PlansOf(f, request);
    if ValidStay(request) && plans.Some? {
      var c := Context(f, request, plans.value.0, plans.value.1);
      var d := Context(g, request, plans.value.0, plans.value.1);
      PricersPermute(c, d);
      RunPermutes(c, d, PricerOf(c, SelectorOf(c)), PricerOf(d, SelectorOf(d)), request.startsOn, {});
    }
  }
}
