/** What a cancellation preview offers to refund, for a single booking and for a room of an order.
    Amounts are minor units. */
module RefundEligibility {
  import opened Collections

  datatype Preview = Preview(penalty: int, eligible: int)

  /** A booking as the order's payments see it: `charges` counts its own successful charges. */
  datatype Child = Child(
    total: nat, paid: nat, refunded: nat, charges: nat, currency: string, currencyMatches: bool, free: bool)

  function Min(a: int, b: int): int {
    if a < b then a else b
  }

  function RefundPreview(paid: int, refunded: int, total: int, free: bool): Preview {
    var remaining := if paid > refunded then paid - refunded else 0;
    var penalty := if free then 0 else total;
    Preview(penalty, if remaining > penalty then remaining - penalty else 0)
  }

  function Charged(): Child -> bool {
    (c: Child) => c.total > 0
  }

  function Charges(): Child -> int {
    (c: Child) => c.charges
  }

  function Unrefunded(): Child -> int {
    (c: Child) => c.paid - c.refunded
  }

  /** One charge pooled for several priced rooms, or a row whose own payments do not add up. */
  predicate SplitUnclear(order: seq<Child>) {
    || (|Filter(order, Charged())| > 1 && Sum(order, Charges()) == 1)
    || (exists i :: 0 <= i < |order| &&
          (order[i].currency != order[0].currency || order[i].charges > 1 || !order[i].currencyMatches
           || order[i].paid > order[i].total || order[i].refunded > order[i].paid))
  }

  /** `orderBalance`: what the order's payments still hold, or None when their split between rooms is unclear. */
  method OrderBalance(order: seq<Child>) returns (balance: Option<int>)
    ensures balance == if SplitUnclear(order) then None else Some(Sum(order, Unrefunded()))
  {
    if SplitUnclear(order) {
      return None;
    }
    var remaining := 0;
    for i := 0 to |order|
      invariant remaining == Sum(order[..i], Unrefunded())
    {
      assert order[..i + 1] == order[..i] + [order[i]];
      SumAppend(order[..i], [order[i]], Unrefunded());
      remaining := remaining + order[i].paid - order[i].refunded;
    }
    assert order[..|order|] == order;
    return Some(remaining);
  }

  /** The refund offered for one room of an order with this balance. */
  function OrderEligible(c: Child, balance: int): int {
    var share := if c.free then c.total else 0;
    Min(Min(share, RefundPreview(c.paid, c.refunded, c.total, c.free).eligible), balance)
  }

  /** A preview never offers more than is left of the payment, and the whole of it when cancelling is free. */
  lemma {:induction false} PreviewWithinPayment(paid: nat, refunded: nat, total: nat, free: bool)
    ensures var preview := RefundPreview(paid, refunded, total, free);
      && 0 <= preview.eligible
      && (refunded <= paid ==> preview.eligible <= paid - refunded)
      && (refunded <= paid && free ==> preview.eligible == paid - refunded)
      && (paid <= refunded ==> preview.eligible == 0)
  {
  }

  lemma {:induction false} UnrefundedCovers(order: seq<Child>, i: nat)
    requires i < |order| && forall k :: 0 <= k < |order| ==> order[k].refunded <= order[k].paid
    ensures order[i].paid - order[i].refunded <= Sum(order, Unrefunded())
    ensures 0 <= Sum(order, Unrefunded())
  {
    if i == 0 {
      if |order| > 1 {
        UnrefundedCovers(order[1..], 0);
      }
    } else {
      UnrefundedCovers(order[1..], i - 1);
    }
  }

  /** Whenever the order's split is clear, a free room is offered exactly its own unrefunded payment and any
      other room nothing: neither the room's price nor the order's balance ever cuts the offer. */
  lemma {:induction false} OrderOfferIsOwnPayment(order: seq<Child>, i: nat)
    requires i < |order| && !SplitUnclear(order)
    ensures OrderEligible(order[i], Sum(order, Unrefunded())) ==
      if order[i].free then order[i].paid - order[i].refunded else 0
  {
    UnrefundedCovers(order, i);
  }

  function Offer(balance: int): Child -> int {
    (c: Child) => OrderEligible(c, balance)
  }

  function FreeUnrefunded(): Child -> int {
    (c: Child) => if c.free then c.paid - c.refunded else 0
  }

  lemma {:induction false} FreePart(order: seq<Child>)
    requires forall k :: 0 <= k < |order| ==> order[k].refunded <= order[k].paid
    ensures Sum(order, FreeUnrefunded()) <= Sum(order, Unrefunded())
    ensures Sum(order, FreeUnrefunded()) == Sum(order, Unrefunded()) <==>
      forall k :: 0 <= k < |order| ==> order[k].free || order[k].paid == order[k].refunded
  {
    if order != [] {
      FreePart(order[1..]);
      assert forall k :: 1 <= k < |order| ==> order[k] == order[1..][k - 1];
    }
  }

  /** Accepting every room's offer never takes more than the order holds, and takes all of it exactly when
      every room with money left is free to cancel. */
  lemma {:induction false} OffersWithinBalance(order: seq<Child>)
    requires !SplitUnclear(order)
    ensures var balance := Sum(order, Unrefunded());
      && Sum(order, Offer(balance)) <= balance
      && (Sum(order, Offer(balance)) == balance <==>
            forall k :: 0 <= k < |order| ==> order[k].free || order[k].paid == order[k].refunded)
  {
    var balance := Sum(order, Unrefunded());
    forall c | c in order
      ensures Offer(balance)(c) == FreeUnrefunded()(c)
    {
      var i :| 0 <= i < |order| && order[i] == c;
      OrderOfferIsOwnPayment(order, i);
    }
    SumCongruent(order, Offer(balance), FreeUnrefunded());
    FreePart(order);
  }
}
