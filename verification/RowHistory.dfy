/** What any history does to the booking rows there are: none is deleted, a cancelled one stays cancelled, and
    one that waits for payment is still exactly what it was. */
module RowHistory {
  import opened BookingStatus
  import opened CancellationModel
  import opened Collections
  import opened HotelInvariant
  import opened HotelModel
  import opened Inventory
  import opened OrderRefunds

  ghost predicate RowsEvolve(s: State, t: State) {
    forall id :: id in s.bookings ==>
      && id in t.bookings
      && (s.bookings[id].status == Cancelled ==> t.bookings[id].status == Cancelled)
      && (t.bookings[id].status == PaymentPending ==> t.bookings[id] == s.bookings[id])
  }

  // ---------------------------------------------------------------- each event

  lemma {:induction false} SettlingEvolves(s: State, ids: seq<BookingId>, how: Settlement)
    requires NoRepeats(ids) && InDomain(s.bookings, ids)
    requires how == Cancel || forall i :: 0 <= i < |ids| ==> s.bookings[ids[i]].status == PaymentPending
    ensures RowsEvolve(s, SettledAll(s, ids, how))
  {
    SettledAllRows(s, ids, how);
  }

  lemma {:induction false} WaitingEvolves(s: State, of: string, how: Settlement)
    ensures RowsEvolve(s, SettledAll(s, WaitingChildren(s, of), how))
  {
    ChildrenNoRepeats(s.bookings, of, s.nextId);
    FilterNoRepeats(Children(s, of), IsWaiting(s.bookings));
    SettlingEvolves(s, WaitingChildren(s, of), how);
  }

  lemma {:induction false} PayingEvolves(s: State, id: BookingId, overdue: bool)
    requires Sound(s)
    ensures RowsEvolve(s, Paid(s, id).0) && RowsEvolve(s, PaymentExpired(s, id, overdue).0)
  {
    if id in s.bookings && s.bookings[id].order.Some? {
      WaitingEvolves(s, s.bookings[id].order.value, Confirm);
      WaitingEvolves(s, s.bookings[id].order.value, Expire);
    }
  }

  lemma {:induction false} OrderingEvolves(s: State, o: Order)
    requires Sound(s)
    ensures RowsEvolve(s, Ordered(s, o).0)
  {
    hide WithChildren, Claimed, AllClaimable, Balanced, WithinCapacity, RoomsNotShared;
    if Ordered(s, o).1.Placed? {
      ChildrenKeys(s.bookings, s.nextId, o, |o.rooms|, OrderStatus(o));
    }
  }

  lemma {:induction false} CreatingEvolves(s: State, c: Creation)
    requires Sound(s)
    ensures RowsEvolve(s, Created(s, c).0)
  {
  }

  lemma {:induction false} MovingEvolves(s: State, m: Move)
    ensures RowsEvolve(s, MovedTo(s, m).0)
  {
  }

  lemma {:induction false} CancellingOneEvolves(s: State, c: Cancellation, f: Facts)
    requires c.booking in s.bookings
    ensures RowsEvolve(s, CancelledOne(s, s.bookings[c.booking], c, f).0)
  {
    OneCancelRows(s, c, f);
  }

  lemma {:induction false} CancellingAllEvolves(s: State, anchor: BookingId, of: string, c: Cancellation, f: Facts)
    ensures RowsEvolve(s, OrderCancelled(s, anchor, of, c, f).0)
  {
    var (t, reply) := OrderCancelled(s, anchor, of, c, f);
    OrderCancellationExact(s, anchor, of, c, f);
    hide *;
    if !reply.NotCancelled? {
      CancelledRowsEvolve(s, t, Children(s, of), f);
    } else {
      ItselfEvolves(s);
    }
  }

  lemma {:induction false} CancelledRowsEvolve(s: State, t: State, ids: seq<BookingId>, f: Facts)
    requires CancelsAccepted(s, t, ids, f)
    ensures RowsEvolve(s, t)
  {
  }

  lemma {:induction false} ItselfEvolves(s: State)
    ensures RowsEvolve(s, s)
  {
  }

  lemma {:induction false} CancellingEvolves(s: State, c: Cancellation, f: Facts)
    ensures RowsEvolve(s, BookingCancelled(s, c, f).0)
  {
    if c.booking in s.bookings && OwnedBy(s.bookings[c.booking], c) && s.bookings[c.booking].version == c.version {
      var order := s.bookings[c.booking].order;
      if order.Some? && !(c.staff && c.single) {
        CancellingAllEvolves(s, c.booking, order.value, c, f);
      } else {
        CancellingOneEvolves(s, c, f);
      }
    }
  }

  lemma {:induction false} EventEvolves(s: State, e: Event)
    requires Sound(s)
    ensures RowsEvolve(s, Apply(s, e))
  {
    match e
    case CreateOne(c) => CreatingEvolves(s, c);
    case CreateOrder(o) => OrderingEvolves(s, o);
    case PaymentArrives(id) => PayingEvolves(s, id, true);
    case PaymentTimesOut(id, overdue) => PayingEvolves(s, id, overdue);
    case CancelBooking(c, f) => CancellingEvolves(s, c, f);
    case MoveRoom(m) => MovingEvolves(s, m);
    case EditStock(_) =>
  }

  // ---------------------------------------------------------------- every history

  /** Over any history a row is never deleted, never un-cancelled, and while it waits for payment it is untouched. */
  lemma {:induction false} HistoryEvolves(s: State, events: seq<Event>)
    requires Sound(s)
    ensures RowsEvolve(s, History(s, events)) && Sound(History(s, events))
    decreases events
  {
    hide Apply, Sound;
    if events != [] {
      EventEvolves(s, events[0]);
      EventKeepsSound(s, events[0]);
      HistoryEvolves(Apply(s, events[0]), events[1..]);
    }
  }

  /** Over any history an order gets no new rows. */
  lemma {:induction false} HistoryKeepsOrder(s: State, events: seq<Event>, reference: string)
    requires Sound(s) && ReferenceTaken(s.bookings, reference)
    ensures KeepsOrder(s, History(s, events), reference)
    decreases events
  {
    hide Apply, ReferenceTaken, Balanced, WithinCapacity, RoomsNotShared;
    if events == [] {
      ItselfKeepsOrder(s, reference);
    } else {
      EventKeepsOrder(s, events[0], reference);
      StaysTaken(s, Apply(s, events[0]), reference);
      EventKeepsSound(s, events[0]);
      HistoryKeepsOrder(Apply(s, events[0]), events[1..], reference);
    }
  }
}
