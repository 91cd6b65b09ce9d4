/** A quote as text: the priced nights printed as decimals, and the same nights after a promo code. */
module Quote {
  import opened Collections
  import opened Calendar
  import opened Money
  import opened Promo
  import P = PricingModel
  import PP = PricingProperties

  datatype Quote = Quote(total: string, nights: seq<NightlyRate>)

  function PrintNights(nights: seq<P.PricedNight>): (r: seq<NightlyRate>)
    ensures |r| == |nights|
  {
    seq(|nights|, i requires 0 <= i < |nights| => NightlyRate(nights[i].date, Decimal(nights[i].amount)))
  }

  function Amounts(nights: seq<P.PricedNight>): seq<int> {
    seq(|nights|, i requires 0 <= i < |nights| => nights[i].amount)
  }

  /** The quote of a valid pricing result. */
  function QuoteOf(r: P.Result): Quote
    requires r.total.Some?
  {
    Quote(Decimal(r.total.value.amount), PrintNights(r.nightlyRates))
  }

  lemma {:induction false} SumOfAmounts(nights: seq<P.PricedNight>)
    ensures Sum(Amounts(nights), Identity()) == Sum(nights, PP.NightAmount())
  {
    if nights != [] {
      SumOfAmounts(nights[1..]);
      assert Amounts(nights)[1..] == Amounts(nights[1..]);
    }
  }

  /** Printed nights within the limit are read back exactly by both parsers. */
  lemma {:induction false} PrintedNightsReadBack(nights: seq<P.PricedNight>, startsOn: Day)
    requires PP.ExactNights(nights, startsOn)
    ensures var printed := PrintNights(nights);
            && Readable(printed)
            && IsNightlyRates(printed, startsOn, startsOn + |nights|)
            && Prices(printed) == Amounts(nights)
            && forall i :: 0 <= i < |nights| ==> Minor(printed[i].amount) == Some(nights[i].amount)
  {
    forall i | 0 <= i < |nights|
      ensures IsAmount(PrintNights(nights)[i].amount)
      ensures ToMinor(PrintNights(nights)[i].amount) == nights[i].amount
      ensures Minor(PrintNights(nights)[i].amount) == Some(nights[i].amount)
    {
      ToMinorOfDecimal(nights[i].amount);
      MinorOfDecimal(nights[i].amount);
    }
  }

  /** A valid pricing result prints to a quote whose nights are accepted, read back exactly, and sum to
      the total that is read back. */
  lemma {:induction false} ValidQuoteAccepted(facts: P.Facts, request: P.Request, twoDecimals: set<string>)
    requires P.Evaluate(facts, request, twoDecimals).valid
    ensures var r := P.Evaluate(facts, request, twoDecimals);
            && r.total.Some?
            && var quote := QuoteOf(r);
            && Readable(quote.nights)
            && IsNightlyRates(quote.nights, request.startsOn, request.endsOn)
            && Prices(quote.nights) == Amounts(r.nightlyRates)
            && Minor(quote.total) == Some(Sum(Prices(quote.nights), Identity()))
            && forall i :: 0 <= i < |quote.nights| ==> Minor(quote.nights[i].amount) == Some(r.nightlyRates[i].amount)
  {
    var r := P.Evaluate(facts, request, twoDecimals);
    PP.ValidResultExact(facts, request, twoDecimals);
    PrintedNightsReadBack(r.nightlyRates, request.startsOn);
    SumOfAmounts(r.nightlyRates);
    MinorOfDecimal(r.total.value.amount);
  }

  /** `applyPromo`: the code checked against the quoted total, its discount spread over the nights. */
  function ApplyPromo(base: Quote, row: PromoRow, input: PromoInput): Option<Quote>
    requires Readable(base.nights) && IsAmount(base.total) && ToMinor(base.total) == input.total
    requires input.total >= 0
  {
    match Check(row, input)
    case NotApplied => None
    case Applied(discount, total) =>
      Some(Quote(Decimal(total), Discounted(base.nights, input.total, discount)))
  }

  /** Reprinted nights keep their dates and read back as the new prices. */
  lemma {:induction false} ReprintedReadBack(prices: seq<int>, nights: seq<NightlyRate>)
    requires |prices| == |nights| && NoneNegative(prices)
    ensures var printed := Print(prices, nights);
            && |printed| == |nights|
            && Readable(printed)
            && Prices(printed) == prices
            && (forall i :: 0 <= i < |nights| ==> IsAmount(printed[i].amount) && printed[i].date == nights[i].date)
  {
    forall i | 0 <= i < |nights|
      ensures IsAmount(Print(prices, nights)[i].amount)
      ensures ToMinor(Print(prices, nights)[i].amount) == prices[i]
    {
      ToMinorOfDecimal(prices[i]);
    }
  }

  /** Nights the acceptor takes, each at most its old price, adding up to `sum`. */
  ghost predicate DiscountedNights(nights: seq<NightlyRate>, prices: seq<int>, startsOn: Day, endsOn: Day, sum: int) {
    && Readable(nights) && IsNightlyRates(nights, startsOn, endsOn)
    && |nights| == |prices|
    && (forall i :: 0 <= i < |prices| ==> 0 <= Prices(nights)[i] <= prices[i])
    && Sum(Prices(nights), Identity()) == sum
  }

  lemma {:induction false} DiscountedNightsAccepted(nights: seq<NightlyRate>, after: seq<int>, startsOn: Day,
      endsOn: Day, sum: int)
    requires Readable(nights) && IsNightlyRates(nights, startsOn, endsOn)
    requires |after| == |nights| && (forall i :: 0 <= i < |after| ==> 0 <= after[i] <= Prices(nights)[i])
    requires Sum(after, Identity()) == sum
    ensures DiscountedNights(Print(after, nights), Prices(nights), startsOn, endsOn, sum)
  {
    ReprintedReadBack(after, nights);
    ReprintedAccepted(after, nights, startsOn, endsOn);
    ReadAsDiscounted(Print(after, nights), after, Prices(nights), startsOn, endsOn, sum);
  }

  lemma {:induction false} ReprintedAccepted(prices: seq<int>, nights: seq<NightlyRate>, startsOn: Day, endsOn: Day)
    requires |prices| == |nights| && NoneNegative(prices) && IsNightlyRates(nights, startsOn, endsOn)
    ensures IsNightlyRates(Print(prices, nights), startsOn, endsOn)
  {
    ReprintedReadBack(prices, nights);
  }

  lemma {:induction false} ReadAsDiscounted(nights: seq<NightlyRate>, read: seq<int>, prices: seq<int>,
      startsOn: Day, endsOn: Day, sum: int)
    requires Readable(nights) && IsNightlyRates(nights, startsOn, endsOn) && Prices(nights) == read
    requires |read| == |prices| && (forall i :: 0 <= i < |prices| ==> 0 <= read[i] <= prices[i])
    requires Sum(read, Identity()) == sum
    ensures DiscountedNights(nights, prices, startsOn, endsOn, sum)
  {
  }

  lemma {:induction false} NightsAfterDiscount(nights: seq<NightlyRate>, startsOn: Day, endsOn: Day,
      total: int, discount: int)
    requires Readable(nights) && startsOn < endsOn && IsNightlyRates(nights, startsOn, endsOn)
    requires total == Sum(Prices(nights), Identity()) && 0 <= discount <= total && total > 0
    ensures DiscountedNights(Discounted(nights, total, discount), Prices(nights), startsOn, endsOn,
                             total - discount + Excess(Prices(nights), total, discount))
  {
    hide Excess;
    var prices := Prices(nights);
    DistributionExact(prices, total, discount);
    DiscountedNightsAccepted(nights, Distribute(prices, total, discount, discount), startsOn, endsOn,
      total - discount + Excess(prices, total, discount));
  }

  lemma {:induction false} TotalAfterDiscount(total: int)
    requires total >= 0
    ensures IsDecimal(Decimal(total)) && ToMinor(Decimal(total)) == total
  {
    ToMinorOfDecimal(total);
  }

  /** After a promo code the nights are still accepted, none got dearer, the total is the price less the
      discount, and the nights sum to it plus what the last night could not give. */
  lemma {:induction false} PromoQuoteAccepted(base: Quote, row: PromoRow, input: PromoInput)
    requires Readable(base.nights) && IsAmount(base.total) && ToMinor(base.total) == input.total
    requires input.startsOn < input.endsOn && IsNightlyRates(base.nights, input.startsOn, input.endsOn)
    requires input.total == Sum(Prices(base.nights), Identity()) >= 0
    requires ApplyPromo(base, row, input).Some?
    ensures var discounted := ApplyPromo(base, row, input).value;
            var discount := Check(row, input).discount;
            && DiscountedNights(discounted.nights, Prices(base.nights), input.startsOn, input.endsOn,
                 input.total - discount + Excess(Prices(base.nights), input.total, discount))
            && IsDecimal(discounted.total) && ToMinor(discounted.total) == input.total - discount
  {
    hide Excess, DiscountedNights, Readable, IsNightlyRates, IsDecimal, IsAmount, Decimal, ToMinor, Distribute;
    AppliedDiscount(row, input);
    var discount := Check(row, input).discount;
    NightsAfterDiscount(base.nights, input.startsOn, input.endsOn, input.total, discount);
    TotalAfterDiscount(input.total - discount);
  }
}
