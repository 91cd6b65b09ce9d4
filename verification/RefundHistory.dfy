/** What is asked back for an order over a whole history: part of its charge once at most and never more than it
    was, and a room's whole charge exactly when staff cancel that room alone and do not skip the refund. */
module RefundHistory {
  import opened BookingStatus
  import opened CancellationModel
  import opened Collections
  import opened HotelInvariant
  import opened HotelModel
  import opened Inventory
  import opened OrderRefunds
  import opened RowHistory

  // ---------------------------------------------------------------- everything asked back for an order

  function BookingOf(call: RefundCall): BookingId {
    match call
    case WholeCharge(booking) => booking
    case PartOfCharge(anchor, _, _) => anchor
  }

  predicate NamesRoomOf(bookings: Bookings, reference: string, call: RefundCall) {
    BookingOf(call) in bookings && bookings[BookingOf(call)].order == Some(reference)
  }

  function IsRefundOf(bookings: Bookings, reference: string): RefundCall -> bool {
    (call: RefundCall) => NamesRoomOf(bookings, reference, call)
  }

  function IsPartRefund(bookings: Bookings, reference: string): RefundCall -> bool {
    (call: RefundCall) => call.PartOfCharge? && NamesRoomOf(bookings, reference, call)
  }

  function IsWholeOf(bookings: Bookings, reference: string): RefundCall -> bool {
    (call: RefundCall) => call.WholeCharge? && NamesRoomOf(bookings, reference, call)
  }

  /** The amount a partial refund names. */
  function AmountOf(): RefundCall -> int {
    (call: RefundCall) => if call.PartOfCharge? then call.amount else 0
  }

  /** The partial refunds of an order's charge asked for so far. */
  function PartRefundsOf(s: State, reference: string): seq<RefundCall> {
    Filter(s.refunds, IsPartRefund(s.bookings, reference))
  }

  /** Every refund that names a room of the order, of either kind. */
  function RefundsOf(s: State, reference: string): seq<RefundCall> {
    Filter(s.refunds, IsRefundOf(s.bookings, reference))
  }

  /** Those that ask for a room's whole charge. */
  function WholesOf(s: State, reference: string): seq<RefundCall> {
    Filter(s.refunds, IsWholeOf(s.bookings, reference))
  }

  /** Every refund names a booking there is. */
  ghost predicate Anchored(s: State) {
    forall call :: call in s.refunds ==> BookingOf(call) in s.bookings
  }

  ghost predicate HasCancelled(s: State, reference: string) {
    exists id :: id in s.bookings && s.bookings[id].order == Some(reference) && s.bookings[id].status == Cancelled
  }

  /** One refund at most, only after a cancellation, and for no more than the order's total. */
  ghost predicate RefundedOnce(s: State, reference: string) {
    var refunds := PartRefundsOf(s, reference);
    && |refunds| <= 1
    && (refunds != [] ==> HasCancelled(s, reference))
    && 0 <= Sum(refunds, AmountOf()) <= AmountBelow(s.bookings, reference, s.nextId)
  }

  // ---------------------------------------------------------------- each event

  /** Events that ask for no order refund keep the bound. */
  lemma {:induction false} SameRefundsKeepBound(s: State, t: State, reference: string, more: seq<RefundCall>)
    requires Anchored(s) && RefundedOnce(s, reference) && RowsEvolve(s, t)
    requires KeepsOrder(s, t, reference)
    requires t.refunds == s.refunds + more && |more| <= 1
    requires forall call :: call in more ==>
      BookingOf(call) in t.bookings && (call.PartOfCharge? ==> t.bookings[BookingOf(call)].order != Some(reference))
    ensures Anchored(t) && RefundedOnce(t, reference)
  {
    SameRefunds(s, t, reference, more);
    AmountKept(s, t, reference, t.nextId);
    AmountStops(s.bookings, reference, s.nextId, t.nextId);
    if HasCancelled(s, reference) {
      var id :| id in s.bookings && s.bookings[id].order == Some(reference) && s.bookings[id].status == Cancelled;
      assert id in t.bookings && t.bookings[id].order == Some(reference) && t.bookings[id].status == Cancelled;
    }
  }

  lemma {:induction false} SameRefunds(s: State, t: State, reference: string, more: seq<RefundCall>)
    requires Anchored(s) && KeepsOrder(s, t, reference)
    requires t.refunds == s.refunds + more && |more| <= 1
    requires forall call :: call in more ==>
      BookingOf(call) in t.bookings && (call.PartOfCharge? ==> t.bookings[BookingOf(call)].order != Some(reference))
    ensures PartRefundsOf(t, reference) == PartRefundsOf(s, reference)
  {
    FilterCongruent(s.refunds, IsPartRefund(s.bookings, reference), IsPartRefund(t.bookings, reference));
    if more != [] {
      assert more == [more[0]];
      FilterAppend(s.refunds, more[0], IsPartRefund(t.bookings, reference));
      assert more[0] in more;
    } else {
      assert t.refunds == s.refunds;
    }
  }

  /** A child of an order that passes its checks may still be cancelled. */
  lemma {:induction false} PassingChild(s: State, reference: string, c: Cancellation, f: Facts, id: BookingId)
    requires Sound(s) && ScanChildren(s.bookings, Children(s, reference), c, f).error.None?
    requires id in s.bookings && s.bookings[id].order == Some(reference)
    ensures s.bookings[id].status != Cancelled
  {
    var ids := Children(s, reference);
    assert id in ids;
    var i :| 0 <= i < |ids| && ids[i] == id;
    ScanAccepts(s.bookings, ids, c, f);
    hide Sound, Children, ScanChildren;
    assert ChildError(s.bookings[ids[i]], ids[i], c, f).None?;
  }

  /** So an order that passes had no child cancelled, and nothing was refunded before. */
  lemma {:induction false} PassingMeansUntouched(s: State, reference: string, c: Cancellation, f: Facts)
    requires Sound(s) && RefundedOnce(s, reference)
    requires ScanChildren(s.bookings, Children(s, reference), c, f).error.None?
    ensures PartRefundsOf(s, reference) == []
  {
    hide Sound, Children, ScanChildren;
    forall id | id in s.bookings && s.bookings[id].order == Some(reference)
      ensures s.bookings[id].status != Cancelled
    {
      PassingChild(s, reference, c, f, id);
    }
  }

  /** Something is due only when a child was cancelled. */
  lemma {:induction false} DueMeansCancelled(s: State, t: State, reference: string, f: Facts)
    requires CancelsAccepted(s, t, Children(s, reference), f)
    requires RefundDue(s.bookings, Children(s, reference), f) > 0
    ensures HasCancelled(t, reference)
  {
    var id := SomeAccepted(s, Children(s, reference), f);
    hide Children, RefundDue;
    assert id in Children(s, reference);
    assert t.bookings[id] == SettledRow(s.bookings[id], Cancel);
  }

  lemma {:induction false} SomeAccepted(s: State, ids: seq<BookingId>, f: Facts) returns (id: BookingId)
    requires RefundDue(s.bookings, ids, f) > 0
    ensures id in ids && id in s.bookings && !Declined(s.bookings[id], f)
  {
    var accepted := AcceptedOf(s.bookings, ids, f);
    DueHasFreeChild(accepted, s.bookings, f);
    id := accepted[0];
    assert id in accepted;
    AcceptedChild(s, ids, f, id);
  }

  lemma {:induction false} AcceptedChild(s: State, ids: seq<BookingId>, f: Facts, id: BookingId)
    requires id in AcceptedOf(s.bookings, ids, f)
    ensures id in s.bookings && !Declined(s.bookings[id], f)
  {
  }

  /** The call an order's cancellation made. */
  lemma {:induction false} CallMade(s: State, t: State, anchor: BookingId, of: string,
      f: Facts) returns (call: RefundCall)
    requires RefundAsked(s, t, anchor, Children(s, of), f) && RefundDue(s.bookings, Children(s, of), f) > 0
    ensures t.refunds == s.refunds + [call]
    ensures call.PartOfCharge? && call.anchor == anchor && call.amount == RefundDue(s.bookings, Children(s, of), f)
  {
    hide Children, RefundDue;
    var i: nat :| AsksIn(s, t, anchor, Children(s, of), f, i);
    call := PartOfCharge(anchor, RefundDue(s.bookings, Children(s, of), f), s.bookings[Children(s, of)[i]].currency);
  }

  /** What the theorem about an order's cancellation says of rows and refunds. */
  ghost predicate CancelledAs(s: State, t: State, anchor: BookingId, reference: string, f: Facts) {
    && CancelsAccepted(s, t, Children(s, reference), f)
    && RefundAsked(s, t, anchor, Children(s, reference), f)
    && RefundDue(s.bookings, Children(s, reference), f) >= 0
    && t.nextId == s.nextId
  }

  lemma {:induction false} OrderIsCancelledAs(s: State, anchor: BookingId, reference: string, c: Cancellation, f: Facts)
    ensures var (t, reply) := OrderCancelled(s, anchor, reference, c, f);
      if reply.NotCancelled? then t == s
      else
        && CancelledAs(s, t, anchor, reference, f)
        && ScanChildren(s.bookings, Children(s, reference), c, f).error.None?
  {
    OrderCancellationExact(s, anchor, reference, c, f);
    NextIdStays(s, anchor, reference, c, f);
    hide CancelsAccepted, ReviewsRecorded, RefundAsked, RefundDue, Children, CarriedOut, ScanChildren;
  }

  lemma {:induction false} NextIdStays(s: State, anchor: BookingId, reference: string, c: Cancellation, f: Facts)
    ensures OrderCancelled(s, anchor, reference, c, f).0.nextId == s.nextId
  {
    var ids := Children(s, reference);
    ChildrenNoRepeats(s.bookings, reference, s.nextId);
    FilterNoRepeats(ids, IsAccepted(s.bookings, f));
    SettledAllRows(s, AcceptedOf(s.bookings, ids, f), Cancel);
    hide AcceptedOf, SettledAll, ScanChildren, RefundDue, Children;
  }

  lemma {:induction false} CancelledAsKeeps(s: State, t: State, anchor: BookingId, of: string, f: Facts,
      reference: string)
    requires Sound(s) && CancelledAs(s, t, anchor, of, f)
    ensures KeepsOrder(s, t, reference) && RowsEvolve(s, t)
  {
    hide RefundAsked, RefundDue, Children;
  }

  /** The one refund of an order. */
  lemma {:induction false} RefundingKeepsBound(s: State, anchor: BookingId, reference: string, c: Cancellation,
      f: Facts)
    requires Sound(s) && Anchored(s) && RefundedOnce(s, reference)
    requires anchor in s.bookings && s.bookings[anchor].order == Some(reference)
    ensures var t := OrderCancelled(s, anchor, reference, c, f).0; Anchored(t) && RefundedOnce(t, reference)
  {
    var (t, reply) := OrderCancelled(s, anchor, reference, c, f);
    OrderIsCancelledAs(s, anchor, reference, c, f);
    hide OrderCancelled, Sound, Children, RefundedOnce, Anchored, KeepsOrder, RowsEvolve, CancelsAccepted, ScanChildren;
    if !reply.NotCancelled? {
      CancelledAsKeeps(s, t, anchor, reference, f, reference);
      if RefundDue(s.bookings, Children(s, reference), f) == 0 {
        assert t.refunds == s.refunds + [];
        SameRefundsKeepBound(s, t, reference, []);
      } else {
        PassingMeansUntouched(s, reference, c, f);
        DueMeansCancelled(s, t, reference, f);
        var call := CallMade(s, t, anchor, reference, f);
        RefundWithinAmount(s, reference, f);
        OnlyRefund(s, t, call, reference);
      }
    }
  }

  lemma {:induction false} OnlyRefund(s: State, t: State, call: RefundCall, reference: string)
    requires Anchored(s) && PartRefundsOf(s, reference) == [] && HasCancelled(t, reference)
    requires KeepsOrder(s, t, reference) && t.nextId == s.nextId
    requires call.PartOfCharge? && call.anchor in s.bookings && s.bookings[call.anchor].order == Some(reference)
    requires t.refunds == s.refunds + [call]
    requires 0 <= call.amount <= AmountBelow(s.bookings, reference, s.nextId)
    ensures Anchored(t) && RefundedOnce(t, reference)
  {
    FilterCongruent(s.refunds, IsPartRefund(s.bookings, reference), IsPartRefund(t.bookings, reference));
    FilterAppend(s.refunds, call, IsPartRefund(t.bookings, reference));
    assert PartRefundsOf(t, reference) == [call];
    AmountKept(s, t, reference, s.nextId);
  }

  lemma {:induction false} CancellingKeepsBound(s: State, c: Cancellation, f: Facts, reference: string)
    requires Sound(s) && Anchored(s) && RefundedOnce(s, reference)
    ensures var t := BookingCancelled(s, c, f).0; Anchored(t) && RefundedOnce(t, reference)
  {
    if c.booking in s.bookings && OwnedBy(s.bookings[c.booking], c) && s.bookings[c.booking].version == c.version {
      var order := s.bookings[c.booking].order;
      if order.Some? && !(c.staff && c.single) {
        if order.value == reference {
          RefundingKeepsBound(s, c.booking, reference, c, f);
        } else {
          OtherOrderKeepsBound(s, c.booking, order.value, c, f, reference);
        }
      } else {
        OneKeepsBound(s, c, f, reference);
      }
    }
  }

  lemma {:induction false} OneKeepsBound(s: State, c: Cancellation, f: Facts, reference: string)
    requires Sound(s) && Anchored(s) && RefundedOnce(s, reference) && c.booking in s.bookings
    ensures var t := CancelledOne(s, s.bookings[c.booking], c, f).0; Anchored(t) && RefundedOnce(t, reference)
  {
    var t := CancelledOne(s, s.bookings[c.booking], c, f).0;
    CancellingOneKeepsOrder(s, c, f, reference);
    CancellingOneEvolves(s, c, f);
    OneRefund(s, c, f);
    hide CancelledOne, Sound;
    SameRefundsKeepBound(s, t, reference, OneAsks(s, c, f));
  }

  /** Cancelling one booking asks for its whole charge iff it is cancelled, its policy refunds it and the refund is
      not skipped. */
  ghost predicate AsksWholeCharge(s: State, c: Cancellation, f: Facts) {
    && c.booking in s.bookings && CancelledOne(s, s.bookings[c.booking], c, f).1.Done?
    && Refundable(c.booking, f) && !c.skipRefund
  }

  ghost function OneAsks(s: State, c: Cancellation, f: Facts): seq<RefundCall> {
    if AsksWholeCharge(s, c, f) then [WholeCharge(c.booking)] else []
  }

  lemma {:induction false} OneRefund(s: State, c: Cancellation, f: Facts)
    requires c.booking in s.bookings
    ensures CancelledOne(s, s.bookings[c.booking], c, f).0.refunds == s.refunds + OneAsks(s, c, f)
  {
    assert s.refunds + [] == s.refunds;
  }

  lemma {:induction false} OtherOrderKeepsBound(s: State, anchor: BookingId, of: string, c: Cancellation,
      f: Facts, reference: string)
    requires Sound(s) && Anchored(s) && RefundedOnce(s, reference) && of != reference
    requires anchor in s.bookings && s.bookings[anchor].order == Some(of)
    ensures var t := OrderCancelled(s, anchor, of, c, f).0; Anchored(t) && RefundedOnce(t, reference)
  {
    var (t, reply) := OrderCancelled(s, anchor, of, c, f);
    OrderIsCancelledAs(s, anchor, of, c, f);
    hide OrderCancelled, Sound, Children, RefundedOnce, Anchored, RowsEvolve, CancelsAccepted, ScanChildren;
    if !reply.NotCancelled? {
      CancelledAsKeeps(s, t, anchor, of, f, reference);
      if RefundDue(s.bookings, Children(s, of), f) == 0 {
        assert t.refunds == s.refunds + [];
        SameRefundsKeepBound(s, t, reference, []);
      } else {
        var call := CallMade(s, t, anchor, of, f);
        assert t.bookings[anchor].order == Some(of);
        SameRefundsKeepBound(s, t, reference, [call]);
      }
    }
  }

  lemma {:induction false} EventKeepsBound(s: State, e: Event, reference: string)
    requires Sound(s) && Anchored(s) && RefundedOnce(s, reference) && ReferenceTaken(s.bookings, reference)
    ensures Anchored(Apply(s, e)) && RefundedOnce(Apply(s, e), reference)
  {
    if e.CancelBooking? {
      CancellingKeepsBound(s, e.cancellation, e.facts, reference);
    } else {
      EventKeepsOrder(s, e, reference);
      OtherEventsAskNothing(s, e);
      EventEvolves(s, e);
      hide Apply, Sound, RefundedOnce, Anchored, KeepsOrder, RowsEvolve;
      SameRefundsKeepBound(s, Apply(s, e), reference, []);
    }
  }

  lemma {:induction false} OtherEventsAskNothing(s: State, e: Event)
    requires !e.CancelBooking?
    ensures Apply(s, e).refunds == s.refunds + []
  {
    assert s.refunds + [] == s.refunds;
    if e.PaymentArrives? || e.PaymentTimesOut? {
      if e.booking in s.bookings && s.bookings[e.booking].order.Some? {
        WaitingAsksNothing(s, s.bookings[e.booking].order.value, Confirm);
        WaitingAsksNothing(s, s.bookings[e.booking].order.value, Expire);
      }
    }
  }

  lemma {:induction false} WaitingAsksNothing(s: State, of: string, how: Settlement)
    ensures SettledAll(s, WaitingChildren(s, of), how).refunds == s.refunds
  {
    ChildrenNoRepeats(s.bookings, of, s.nextId);
    FilterNoRepeats(Children(s, of), IsWaiting(s.bookings));
    SettledAllRows(s, WaitingChildren(s, of), how);
  }

  lemma {:induction false} HistoryKeepsBound(s: State, events: seq<Event>, reference: string)
    requires Sound(s) && Anchored(s) && RefundedOnce(s, reference) && ReferenceTaken(s.bookings, reference)
    ensures RefundedOnce(History(s, events), reference)
    decreases events
  {
    hide Sound, Anchored, RefundedOnce, ReferenceTaken, Apply, KeepsOrder;
    if events != [] {
      EventKeepsBound(s, events[0], reference);
      EventKeepsSound(s, events[0]);
      EventKeepsOrder(s, events[0], reference);
      StaysTaken(s, Apply(s, events[0]), reference);
      HistoryKeepsBound(Apply(s, events[0]), events[1..], reference);
    }
  }

  lemma {:induction false} HistoryIsAnchored(s: State, events: seq<Event>)
    requires Sound(s) && Anchored(s)
    ensures Sound(History(s, events)) && Anchored(History(s, events))
    decreases events
  {
    hide Sound, Anchored, Apply;
    if events != [] {
      EventKeepsAnchored(s, events[0]);
      EventKeepsSound(s, events[0]);
      HistoryIsAnchored(Apply(s, events[0]), events[1..]);
    }
  }

  /** Rows are never deleted, and a new refund names a booking there is. */
  lemma {:induction false} EventKeepsAnchored(s: State, e: Event)
    requires Sound(s) && Anchored(s)
    ensures Anchored(Apply(s, e))
  {
    if e.CancelBooking? {
      CancellingKeepsAnchored(s, e.cancellation, e.facts);
    } else {
      OtherEventsAskNothing(s, e);
      EventEvolves(s, e);
      assert Apply(s, e).refunds == s.refunds;
    }
  }

  lemma {:induction false} CancellingKeepsAnchored(s: State, c: Cancellation, f: Facts)
    requires Anchored(s)
    ensures Anchored(BookingCancelled(s, c, f).0)
  {
    if c.booking in s.bookings && OwnedBy(s.bookings[c.booking], c) && s.bookings[c.booking].version == c.version {
      var order := s.bookings[c.booking].order;
      if order.Some? && !(c.staff && c.single) {
        AskedIsAnchored(s, c.booking, order.value, c, f);
      } else {
        OneRefund(s, c, f);
        OneCancelRows(s, c, f);
      }
    }
  }

  lemma {:induction false} AskedIsAnchored(s: State, anchor: BookingId, of: string, c: Cancellation, f: Facts)
    requires Anchored(s) && anchor in s.bookings
    ensures Anchored(OrderCancelled(s, anchor, of, c, f).0)
  {
    var (t, reply) := OrderCancelled(s, anchor, of, c, f);
    OrderIsCancelledAs(s, anchor, of, c, f);
    hide OrderCancelled, Children, RefundDue, ScanChildren;
    if !reply.NotCancelled? && RefundDue(s.bookings, Children(s, of), f) > 0 {
      var call := CallMade(s, t, anchor, of, f);
    }
  }

  // ---------------------------------------------------------------- whole charges

  /** Staff cancel one room of the order on its own, and do not skip the refund its policy gives. */
  ghost predicate AsksForRoom(s: State, e: Event, reference: string) {
    && e.CancelBooking?
    && var c, f := e.cancellation, e.facts;
    && c.booking in s.bookings && s.bookings[c.booking].order == Some(reference)
    && s.bookings[c.booking].version == c.version && c.staff && c.single && !c.skipRefund
    && CanTransition(s.bookings[c.booking].status, Cancelled) && !Declined(s.bookings[c.booking], f)
    && Refundable(c.booking, f)
  }

  /** The rooms whose whole charge a history asks back, in order. */
  ghost function RoomsAsked(s: State, events: seq<Event>, reference: string): seq<RefundCall>
    decreases events
  {
    if events == [] then []
    else
      (if AsksForRoom(s, events[0], reference) then [WholeCharge(events[0].cancellation.booking)] else [])
      + RoomsAsked(Apply(s, events[0]), events[1..], reference)
  }

  lemma {:induction false} WholesGrow(s: State, t: State, reference: string, more: seq<RefundCall>)
    requires Anchored(s) && KeepsOrder(s, t, reference) && t.refunds == s.refunds + more && |more| <= 1
    ensures WholesOf(t, reference) ==
      WholesOf(s, reference) + if more != [] && IsWholeOf(t.bookings, reference)(more[0]) then more else []
  {
    forall call | call in s.refunds
      ensures IsWholeOf(s.bookings, reference)(call) == IsWholeOf(t.bookings, reference)(call)
    {
      assert BookingOf(call) in s.bookings;
    }
    FilterCongruent(s.refunds, IsWholeOf(s.bookings, reference), IsWholeOf(t.bookings, reference));
    if more == [] {
      assert t.refunds == s.refunds;
    } else {
      assert more == [more[0]];
      FilterAppend(s.refunds, more[0], IsWholeOf(t.bookings, reference));
    }
  }

  /** An order's cancellation asks for no whole charge. */
  lemma {:induction false} OrderAsksNoWhole(s: State, anchor: BookingId, of: string, c: Cancellation, f: Facts,
      reference: string)
    requires Sound(s) && Anchored(s)
    ensures WholesOf(OrderCancelled(s, anchor, of, c, f).0, reference) == WholesOf(s, reference)
  {
    var (t, reply) := OrderCancelled(s, anchor, of, c, f);
    OrderIsCancelledAs(s, anchor, of, c, f);
    CancellingAllKeepsOrder(s, anchor, of, c, f, reference);
    hide OrderCancelled, Sound, Anchored, KeepsOrder, CancelsAccepted, ScanChildren, WholesOf;
    if !reply.NotCancelled? {
      hide Children;
      if RefundDue(s.bookings, Children(s, of), f) == 0 {
        assert t.refunds == s.refunds + [];
        WholesGrow(s, t, reference, []);
      } else {
        var call := CallMade(s, t, anchor, of, f);
        WholesGrow(s, t, reference, [call]);
      }
    }
  }

  /** A room of an order is cancelled on its own by staff only. */
  lemma {:induction false} OneAsksForRoom(s: State, c: Cancellation, f: Facts, reference: string)
    requires Sound(s) && Anchored(s) && c.booking in s.bookings && s.bookings[c.booking].version == c.version
    requires OwnedBy(s.bookings[c.booking], c) && (s.bookings[c.booking].order.Some? ==> c.staff && c.single)
    ensures WholesOf(CancelledOne(s, s.bookings[c.booking], c, f).0, reference) == WholesOf(s, reference) +
      if AsksForRoom(s, CancelBooking(c, f), reference) then [WholeCharge(c.booking)] else []
  {
    var t := CancelledOne(s, s.bookings[c.booking], c, f).0;
    CancellingOneKeepsOrder(s, c, f, reference);
    OneRefund(s, c, f);
    WholesGrow(s, t, reference, OneAsks(s, c, f));
    assert t.bookings[c.booking].order == s.bookings[c.booking].order;
    assert IsWholeOf(t.bookings, reference)(WholeCharge(c.booking)) <==>
      s.bookings[c.booking].order == Some(reference);
    hide Sound, WholesOf, Anchored, IsWholeOf;
    assert AsksForRoom(s, CancelBooking(c, f), reference) <==>
      AsksWholeCharge(s, c, f) && s.bookings[c.booking].order == Some(reference);
  }

  lemma {:induction false} EventAsksForRoom(s: State, e: Event, reference: string)
    requires Sound(s) && Anchored(s) && ReferenceTaken(s.bookings, reference)
    ensures WholesOf(Apply(s, e), reference) == WholesOf(s, reference) +
      if AsksForRoom(s, e, reference) then [WholeCharge(e.cancellation.booking)] else []
  {
    if e.CancelBooking? {
      CancellingAsksForRoom(s, e.cancellation, e.facts, reference);
    } else {
      EventKeepsOrder(s, e, reference);
      OtherEventsAskNothing(s, e);
      hide Apply, Sound, Anchored, KeepsOrder, WholesOf;
      WholesGrow(s, Apply(s, e), reference, []);
    }
  }

  lemma {:induction false} CancellingAsksForRoom(s: State, c: Cancellation, f: Facts, reference: string)
    requires Sound(s) && Anchored(s)
    ensures WholesOf(BookingCancelled(s, c, f).0, reference) == WholesOf(s, reference) +
      if AsksForRoom(s, CancelBooking(c, f), reference) then [WholeCharge(c.booking)] else []
  {
    hide Sound, WholesOf, Anchored, OrderCancelled, CancelledOne;
    if c.booking in s.bookings && OwnedBy(s.bookings[c.booking], c) && s.bookings[c.booking].version == c.version {
      var order := s.bookings[c.booking].order;
      if order.Some? && !(c.staff && c.single) {
        OrderAsksNoWhole(s, c.booking, order.value, c, f, reference);
      } else {
        OneAsksForRoom(s, c, f, reference);
      }
    }
  }

  lemma {:induction false} HistoryAsksForRooms(s: State, events: seq<Event>, reference: string)
    requires Sound(s) && Anchored(s) && ReferenceTaken(s.bookings, reference)
    ensures WholesOf(History(s, events), reference) == WholesOf(s, reference) + RoomsAsked(s, events, reference)
    decreases events
  {
    hide Sound, Anchored, WholesOf, ReferenceTaken, Apply, KeepsOrder, AsksForRoom;
    if events != [] {
      EventAsksForRoom(s, events[0], reference);
      EventKeepsAnchored(s, events[0]);
      EventKeepsSound(s, events[0]);
      EventKeepsOrder(s, events[0], reference);
      StaysTaken(s, Apply(s, events[0]), reference);
      HistoryAsksForRooms(Apply(s, events[0]), events[1..], reference);
    }
  }

  // ---------------------------------------------------------------- the whole history of an order

  /** Whatever happens before an order is placed and after, part of its charge is asked back once at most, for at
      most what its checkout asked for; and a room's whole charge is asked back exactly when staff cancel the room
      on its own without skipping the refund. */
  lemma {:induction false} OrderRefundedOnce(before: seq<Event>, o: Order, after: seq<Event>)
    requires Ordered(History(NEW_HOTEL, before), o).1.Placed?
    ensures var u := Ordered(History(NEW_HOTEL, before), o).0;
      var t := History(u, after);
      && |PartRefundsOf(t, o.reference)| <= 1
      && 0 <= Sum(PartRefundsOf(t, o.reference), AmountOf()) <= CheckoutAmount(o.rooms)
      && WholesOf(t, o.reference) == RoomsAsked(u, after, o.reference)
  {
    var s := History(NEW_HOTEL, before);
    var u := Ordered(s, o).0;
    NewHotelIsSound();
    HistoryIsAnchored(NEW_HOTEL, before);
    OrderKeepsSound(s, o);
    EventKeepsAnchored(s, CreateOrder(o));
    OrderIsTaken(s, o);
    OrderAmount(s, o);
    NothingRefundedYet(s, o);
    hide Ordered, Sound, Anchored, ReferenceTaken, PartRefundsOf, WholesOf;
    HistoryKeepsBound(u, after, o.reference);
    HistoryKeepsAmount(u, after, o.reference);
    HistoryAsksForRooms(u, after, o.reference);
  }

  /** As the review of cancellation requests does: whoever cancels one room of an order refunds it separately. */
  ghost predicate SinglesSkipRefund(events: seq<Event>) {
    forall e :: e in events && e.CancelBooking? && e.cancellation.single ==> e.cancellation.skipRefund
  }

  lemma {:induction false} SkippedAreNotAsked(s: State, events: seq<Event>, reference: string)
    requires SinglesSkipRefund(events)
    ensures RoomsAsked(s, events, reference) == []
    decreases events
  {
    if events != [] {
      assert events[0] in events;
      SkippedAreNotAsked(Apply(s, events[0]), events[1..], reference);
    }
  }

  /** Then all that is ever asked back for an order, of either kind, is one refund of at most its checkout amount. */
  lemma {:induction false} AllRefundsBounded(before: seq<Event>, o: Order, after: seq<Event>)
    requires Ordered(History(NEW_HOTEL, before), o).1.Placed? && SinglesSkipRefund(after)
    ensures var refunds := RefundsOf(History(Ordered(History(NEW_HOTEL, before), o).0, after), o.reference);
      && |refunds| <= 1 && (forall call :: call in refunds ==> call.PartOfCharge?)
      && 0 <= Sum(refunds, AmountOf()) <= CheckoutAmount(o.rooms)
  {
    var u := Ordered(History(NEW_HOTEL, before), o).0;
    OrderRefundedOnce(before, o, after);
    SkippedAreNotAsked(u, after, o.reference);
    hide History, Ordered;
    NoWholesLeft(History(u, after), o.reference);
  }

  lemma {:induction false} NoWholesLeft(t: State, reference: string)
    requires WholesOf(t, reference) == []
    ensures RefundsOf(t, reference) == PartRefundsOf(t, reference)
    ensures forall call :: call in RefundsOf(t, reference) ==> call.PartOfCharge?
  {
    forall call | call in t.refunds
      ensures IsRefundOf(t.bookings, reference)(call) == IsPartRefund(t.bookings, reference)(call)
    {
      assert !IsWholeOf(t.bookings, reference)(call);
    }
    FilterCongruent(t.refunds, IsRefundOf(t.bookings, reference), IsPartRefund(t.bookings, reference));
  }

  lemma {:induction false} NothingRefundedYet(s: State, o: Order)
    requires Sound(s) && Anchored(s) && Ordered(s, o).1.Placed?
    ensures RefundedOnce(Ordered(s, o).0, o.reference) && WholesOf(Ordered(s, o).0, o.reference) == []
  {
    var u := Ordered(s, o).0;
    ChildrenKeys(s.bookings, s.nextId, o, |o.rooms|, OrderStatus(o));
    forall call | call in s.refunds
      ensures !IsRefundOf(u.bookings, o.reference)(call)
    {
      assert BookingOf(call) in s.bookings && BookingOf(call) < s.nextId;
    }
    hide Ordered, Sound, Anchored;
    FilterNone(s.refunds, IsPartRefund(u.bookings, o.reference));
    FilterNone(s.refunds, IsWholeOf(u.bookings, o.reference));
  }
}
