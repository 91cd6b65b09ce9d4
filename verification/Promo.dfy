/** Promo codes: the discount on a stay and its distribution over the nights. */
module Promo {
  import opened Collections
  import opened Calendar
  import opened Money

  datatype NightlyRate = NightlyRate(date: Day, amount: string)

  /** The acceptor of quoted nights: one amount for every consecutive night of the stay. */
  predicate IsNightlyRates(rates: seq<NightlyRate>, startsOn: Day, endsOn: Day) {
    |rates| == endsOn - startsOn
    && forall i :: 0 <= i < |rates| ==> IsAmount(rates[i].amount) && rates[i].date == startsOn + i
  }

  function Identity(): int -> int {
    (n: int) => n
  }

  function NonNegative(n: int): nat {
    if n > 0 then n else 0
  }

  /** Readable amounts, as `toMinor` needs them. */
  predicate Readable(nights: seq<NightlyRate>) {
    forall n :: n in nights ==> IsAmount(n.amount)
  }

  function Prices(nights: seq<NightlyRate>): (r: seq<int>)
    requires Readable(nights)
    ensures |r| == |nights|
    ensures forall i :: 0 <= i < |r| ==> r[i] == ToMinor(nights[i].amount) >= 0
  {
    seq(|nights|, i requires 0 <= i < |nights| => assert nights[i] in nights; ToMinor(nights[i].amount))
  }

  // ---------------------------------------------------------------- distribution of the discount

  /** The proportional share of one night, rounded down. */
  function Share(price: int, total: int, discount: int): int
    requires total > 0
  {
    TruncDiv(price * discount, total)
  }

  /** Prices after the discount: each night but the last gives its share, the last what is left. */
  function Distribute(prices: seq<int>, total: int, discount: int, left: int): (r: seq<int>)
    requires total > 0
    ensures |r| == |prices|
  {
    if prices == [] then []
    else if |prices| == 1 then [NonNegative(prices[0] - left)]
    else
      var share := Share(prices[0], total, discount);
      [NonNegative(prices[0] - share)] + Distribute(prices[1..], total, discount, left - share)
  }

  function Print(prices: seq<int>, nights: seq<NightlyRate>): seq<NightlyRate>
    requires |prices| == |nights|
  {
    seq(|nights|, i requires 0 <= i < |nights| => nights[i].(amount := Decimal(prices[i])))
  }

  function Discounted(nights: seq<NightlyRate>, total: int, discount: int): seq<NightlyRate>
    requires Readable(nights) && total >= 0
  {
    if nights == [] || total == 0 then nights
    else Print(Distribute(Prices(nights), total, discount, discount), nights)
  }

  method DiscountNights(nights: seq<NightlyRate>, total: int, discount: int) returns (r: seq<NightlyRate>)
    requires Readable(nights) && total >= 0
    ensures r == Discounted(nights, total, discount)
  {
    if |nights| == 0 || total == 0 {
      return nights;
    }
    var discounted := DiscountPrices(Prices(nights), total, discount);
    return Print(discounted, nights);
  }

  method DiscountPrices(prices: seq<int>, total: int, discount: int) returns (discounted: seq<int>)
    requires total > 0
    ensures discounted == Distribute(prices, total, discount, discount)
  {
    var left := discount;
    discounted := [];
    for index := 0 to |prices|
      invariant Distribute(prices, total, discount, discount)
             == discounted + Distribute(prices[index..], total, discount, left)
    {
      var price := prices[index];
      assert prices[index..][0] == price && prices[index..][1..] == prices[index + 1..];
      var share := if index == |prices| - 1 then left else TruncDiv(price * discount, total);
      left := left - share;
      discounted := discounted + [if price - share > 0 then price - share else 0];
    }
  }

  /** The sum of the shares of all nights. */
  function Shares(prices: seq<int>, total: int, discount: int): int
    requires total > 0
  {
    if prices == [] then 0 else Share(prices[0], total, discount) + Shares(prices[1..], total, discount)
  }

  /** What the last night is asked to give: the discount less the shares of the others. */
  function Remainder(prices: seq<int>, total: int, discount: int): int
    requires total > 0 && prices != []
  {
    discount - Shares(prices[..|prices| - 1], total, discount)
  }

  /** What the last night cannot give, lost to the clamp at zero. */
  function Excess(prices: seq<int>, total: int, discount: int): nat
    requires total > 0 && prices != []
  {
    NonNegative(Remainder(prices, total, discount) - prices[|prices| - 1])
  }

  ghost predicate NoneNegative(prices: seq<int>) {
    forall i :: 0 <= i < |prices| ==> prices[i] >= 0
  }

  ghost predicate Distributable(prices: seq<int>, total: int, discount: int) {
    && prices != []
    && NoneNegative(prices)
    && Sum(prices, Identity()) == total > 0
    && 0 <= discount <= total
  }

  lemma {:induction false} ShareBounds(price: int, total: int, discount: int)
    requires price >= 0 && 0 <= discount <= total && total > 0
    ensures 0 <= Share(price, total, discount) <= price
    ensures Share(price, total, discount) * total <= price * discount
    ensures price * discount <= Share(price, total, discount) * total + total - 1
  {
    var share := Share(price, total, discount);
    MulMonotone(0, price, discount);
    assert price * discount >= 0;
    assert share * total <= price * discount < share * total + total;
    MulMonotone(discount, total, price);
    if share > price {
      MulMonotone(price + 1, share, total);
    }
    if share < 0 {
      MulMonotone(share, -1, total);
    }
  }

  lemma {:induction false} Distributes(a: int, b: int, c: int)
    ensures (a + b) * c == a * c + b * c
  {
  }

  lemma {:induction false} SharesBounds(prices: seq<int>, total: int, discount: int)
    requires NoneNegative(prices) && 0 <= discount <= total && total > 0
    ensures Shares(prices, total, discount) * total <= Sum(prices, Identity()) * discount
    ensures Sum(prices, Identity()) * discount <= Shares(prices, total, discount) * total + |prices| * (total - 1)
  {
    if prices != [] {
      hide Share;
      ShareBounds(prices[0], total, discount);
      SharesBounds(prices[1..], total, discount);
      Distributes(Share(prices[0], total, discount), Shares(prices[1..], total, discount), total);
      Distributes(prices[0], Sum(prices[1..], Identity()), discount);
      Distributes(1, |prices[1..]|, total - 1);
    }
  }

  /** Each night but the last ends between zero and its price; the sum follows from what the last one gives. */
  lemma {:induction false} DistributeSum(prices: seq<int>, total: int, discount: int, left: int)
    requires NoneNegative(prices) && 0 <= discount <= total && total > 0 && prices != []
    ensures var r := Distribute(prices, total, discount, left);
            var last := |prices| - 1;
            var remainder := left - Shares(prices[..last], total, discount);
            && (forall i :: 0 <= i < last ==> 0 <= r[i] <= prices[i])
            && r[last] == NonNegative(prices[last] - remainder)
            && Sum(r, Identity()) == Sum(prices, Identity()) - left + NonNegative(remainder - prices[last])
  {
    var last := |prices| - 1;
    hide Share;
    if last == 0 {
      assert prices[..0] == [] && prices[1..] == [];
      assert Sum(prices, Identity()) == prices[0];
      assert Distribute(prices, total, discount, left)[1..] == [];
    } else {
      hide Distribute, Shares, Sum;
      var share := Share(prices[0], total, discount);
      ShareBounds(prices[0], total, discount);
      DistributeSum(prices[1..], total, discount, left - share);
      DistributeStep(prices, total, discount, left);
    }
  }

  /** The first of several nights gives its share, and the others distribute the rest. */
  lemma {:induction false} DistributeStep(prices: seq<int>, total: int, discount: int, left: int)
    requires total > 0 && |prices| > 1
    ensures var r, share, last := Distribute(prices, total, discount, left), Share(prices[0], total, discount), |prices| - 1;
      && r == [NonNegative(prices[0] - share)] + Distribute(prices[1..], total, discount, left - share)
      && Sum(r, Identity()) == r[0] + Sum(Distribute(prices[1..], total, discount, left - share), Identity())
      && Sum(prices, Identity()) == prices[0] + Sum(prices[1..], Identity())
      && Shares(prices[..last], total, discount) == share + Shares(prices[1..][..last - 1], total, discount)
  {
    hide Share;
    var last := |prices| - 1;
    assert prices[..last][1..] == prices[1..][..last - 1];
    assert Distribute(prices, total, discount, left)[1..]
        == Distribute(prices[1..], total, discount, left - Share(prices[0], total, discount));
  }

  /** Every night ends between zero and its old price, and the nights sum to the discounted total plus
      exactly what the last night cannot give. */
  lemma {:induction false} DistributionExact(prices: seq<int>, total: int, discount: int)
    requires Distributable(prices, total, discount)
    ensures var r := Distribute(prices, total, discount, discount);
            && (forall i :: 0 <= i < |r| ==> 0 <= r[i] <= prices[i])
            && Sum(r, Identity()) == total - discount + Excess(prices, total, discount)
  {
    DistributeSum(prices, total, discount, discount);
    RemainderBounds(prices, total, discount);
  }

  lemma {:induction false} RemainderBounds(prices: seq<int>, total: int, discount: int)
    requires Distributable(prices, total, discount)
    ensures Remainder(prices, total, discount) >= 0
    ensures Excess(prices, total, discount) <= NonNegative(|prices| - 2)
  {
    var front, last := prices[..|prices| - 1], prices[|prices| - 1];
    assert prices == front + [last] && [last][1..] == [];
    SumAppend(front, [last], Identity());
    SharesBounds(front, total, discount);
    SumBounds(front);
    RemainderArithmetic(Shares(front, total, discount), total, discount, last, |front|);
  }

  lemma {:induction false} SumBounds(prices: seq<int>)
    requires NoneNegative(prices)
    ensures Sum(prices, Identity()) >= 0
  {
    if prices != [] {
      SumBounds(prices[1..]);
    }
  }

  lemma {:induction false} RemainderArithmetic(shares: int, total: int, discount: int, last: int, n: nat)
    requires total > 0 && 0 <= last <= total && 0 <= discount <= total
    requires shares * total <= (total - last) * discount <= shares * total + n * (total - 1)
    ensures discount - shares >= 0
    ensures discount - shares - last <= NonNegative(n - 1)
  {
    var r := discount - shares;
    assert (total - last) * discount == total * discount - last * discount;
    assert r * total == discount * total - shares * total;
    MulMonotone(0, last, discount);
    if r < 0 {
      MulMonotone(r, -1, total);
    }
    MulMonotone(discount, total, last);
    OverBound(r - last, n, total, r * total - last * total);
  }

  lemma {:induction false} OverBound(x: int, n: nat, total: int, product: int)
    requires total > 0 && product == x * total && product <= n * (total - 1)
    ensures x <= NonNegative(n - 1)
  {
    assert n * (total - 1) == n * total - n;
    if x >= n && x >= 1 {
      MulMonotone(n, x, total);
      assert n == 0;
    }
  }

  /** The documented claim, "the nights still add up to the discounted total", holds exactly when the
      last night costs at least the remainder it is asked to give. */
  lemma {:induction false} NightsAddUpIff(prices: seq<int>, total: int, discount: int)
    requires Distributable(prices, total, discount)
    ensures Sum(Distribute(prices, total, discount, discount), Identity()) == total - discount
            <==> Remainder(prices, total, discount) <= prices[|prices| - 1]
  {
    DistributionExact(prices, total, discount);
  }

  /** The nights never sum to less than the discounted total; one or two nights are always exact, and
      n nights exceed it by at most n - 2. */
  lemma {:induction false} ExcessBounded(prices: seq<int>, total: int, discount: int)
    requires Distributable(prices, total, discount)
    ensures var sum := Sum(Distribute(prices, total, discount, discount), Identity());
            && total - discount <= sum <= total - discount + NonNegative(|prices| - 2)
            && (|prices| <= 2 ==> sum == total - discount)
  {
    DistributionExact(prices, total, discount);
    RemainderBounds(prices, total, discount);
  }

  /** `k` nights at one cent. */
  function Cents1(k: nat): (r: seq<int>)
    ensures |r| == k && forall i :: 0 <= i < |r| ==> r[i] == 1
  {
    if k == 0 then [] else [1] + Cents1(k - 1)
  }

  lemma {:induction false} CentsShares(k: nat, total: int, discount: int)
    requires 0 <= discount < total
    ensures Sum(Cents1(k), Identity()) == k
    ensures Shares(Cents1(k), total, discount) == 0
  {
    if k > 0 {
      assert Cents1(k)[1..] == Cents1(k - 1);
      CentsShares(k - 1, total, discount);
      assert 1 * discount / total == 0;
    }
  }

  /** The bound is reached for every number of nights: n - 1 nights at one cent before a free night,
      with all but one cent discounted, keep their price. */
  lemma {:induction false} ExcessReached(n: nat)
    requires n >= 2
    ensures var prices := Cents1(n - 1) + [0];
            && Distributable(prices, n - 1, n - 2)
            && Sum(Distribute(prices, n - 1, n - 2, n - 2), Identity()) == (n - 1) - (n - 2) + (n - 2)
  {
    var prices := Cents1(n - 1) + [0];
    CentsShares(n - 1, n - 1, n - 2);
    SumAppend(Cents1(n - 1), [0], Identity());
    assert [0][1..] == [];
    assert prices[..|prices| - 1] == Cents1(n - 1);
    DistributionExact(prices, n - 1, n - 2);
  }

  // ---------------------------------------------------------------- the discount

  datatype PromoKind = Percent | FixedAmount

  datatype PromoRow = PromoRow(
    code: string,
    kind: PromoKind,
    value: int,
    currency: Option<string>,
    bookFrom: Option<Day>,
    bookUntil: Option<Day>,
    stayFrom: Option<Day>,
    stayUntil: Option<Day>,
    minNights: Option<int>,
    roomTypeIds: Option<seq<string>>,
    maxRedemptions: Option<int>,
    redemptions: int,
    active: bool)

  /** The discount in minor units; `value` is in hundredths of a percent or in minor units. */
  function DiscountMinor(kind: PromoKind, value: int, total: int): int {
    var raw := if kind == Percent then TruncDiv(total * value + 5000, 10000) else value;
    if raw > total then total else raw
  }

  /** A percentage discount is the half-up rounded share of the price, and never more than the price. */
  lemma {:induction false} PercentDiscountRounded(value: int, total: int)
    requires value >= 0 && total >= 0
    ensures var d := DiscountMinor(Percent, value, total);
            && 0 <= d <= total
            && (d < total ==> 10000 * d - 5000 <= total * value < 10000 * d + 5000)
            && (d == total ==> 10000 * total - 5000 <= total * value)
  {
    MulMonotone(0, value, total);
    assert total * value >= 0;
  }

  datatype PromoInput = PromoInput(
    roomTypeId: string, startsOn: Day, endsOn: Day, total: int, currency: string, today: Day)

  predicate PromoMatches(row: PromoRow, input: PromoInput) {
    && row.active
    && (row.bookFrom.Some? ==> row.bookFrom.value <= input.today)
    && (row.bookUntil.Some? ==> input.today <= row.bookUntil.value)
    && (row.stayFrom.Some? ==> row.stayFrom.value <= input.startsOn)
    && (row.stayUntil.Some? ==> input.endsOn <= row.stayUntil.value)
    && (row.minNights.Some? && row.minNights.value != 0 ==> input.endsOn - input.startsOn >= row.minNights.value)
    && (row.roomTypeIds.Some? && row.roomTypeIds.value != [] ==> input.roomTypeId in row.roomTypeIds.value)
    && (row.maxRedemptions.Some? ==> row.redemptions < row.maxRedemptions.value)
    && (row.kind == FixedAmount ==> row.currency == Some(input.currency))
  }

  datatype PromoResult = NotApplied | Applied(discount: int, total: int)

  function Check(row: PromoRow, input: PromoInput): (r: PromoResult) {
    if !PromoMatches(row, input) then NotApplied
    else
      var discount := DiscountMinor(row.kind, row.value, input.total);
      if discount <= 0 then NotApplied else Applied(discount, input.total - discount)
  }

  /** An applied code takes something off and never more than the price; one that matches is refused
      only when it would take nothing off. */
  lemma {:induction false} AppliedDiscount(row: PromoRow, input: PromoInput)
    ensures Check(row, input).Applied? ==>
              && PromoMatches(row, input)
              && 0 < Check(row, input).discount <= input.total
              && Check(row, input).total + Check(row, input).discount == input.total
    ensures PromoMatches(row, input) && row.value > 0 && input.total > 0 && row.kind == FixedAmount
            ==> Check(row, input).Applied?
    ensures PromoMatches(row, input) && row.kind == Percent && input.total >= 0 && row.value >= 0
            ==> (Check(row, input).Applied? <==> input.total * row.value >= 5000)
  {
    if input.total >= 0 && row.value >= 0 {
      PercentDiscountRounded(row.value, input.total);
      MulMonotone(0, row.value, input.total);
      assert input.total == 0 ==> input.total * row.value == 0;
    }
  }
}
