/** What an order was charged at checkout bounds what its cancellation can ever ask back. */
module OrderRefunds {
  import BookingStatus
  import opened CancellationModel
  import opened Collections
  import opened HotelInvariant
  import opened HotelModel
  import opened Inventory
  import opened InventoryLocks

  /** The checkout amount: the sum of the requested rooms. */
  function CheckoutAmount(rooms: seq<RoomRequest>): nat {
    if rooms == [] then 0 else CheckoutAmount(rooms[..|rooms| - 1]) + rooms[|rooms| - 1].total
  }

  /** The totals of the order's rows with an id below `n`. */
  function AmountBelow(bookings: Bookings, reference: string, n: nat): nat {
    if n == 0 then 0
    else
      AmountBelow(bookings, reference, n - 1) +
      (if n - 1 in bookings && bookings[n - 1].order == Some(reference) then bookings[n - 1].total else 0)
  }

  lemma {:induction false} InsertChildSum(bookings: Bookings, id: BookingId, ids: seq<BookingId>, f: BookingId -> int)
    requires id in bookings && (forall i :: 0 <= i < |ids| ==> ids[i] in bookings)
    ensures Sum(InsertChild(bookings, id, ids), f) == Sum(ids, f) + f(id)
  {
    if ids != [] && bookings[id].roomNumber >= bookings[ids[0]].roomNumber {
      InsertChildSum(bookings, id, ids[1..], f);
    }
  }

  lemma {:induction false} ChildrenSum(bookings: Bookings, reference: string, n: nat)
    ensures Sum(ChildrenBelow(bookings, reference, n), TotalOf(bookings)) == AmountBelow(bookings, reference, n)
  {
    if n > 0 {
      ChildrenSum(bookings, reference, n - 1);
      var rest := ChildrenBelow(bookings, reference, n - 1);
      if n - 1 in bookings && bookings[n - 1].order == Some(reference) {
        assert forall i :: 0 <= i < |rest| ==> rest[i] in rest;
        InsertChildSum(bookings, n - 1, rest, TotalOf(bookings));
      }
    }
  }

  // ---------------------------------------------------------------- an order's rows keep their totals

  /** The rows of one order survive with their totals, and it gets no new ones. */
  ghost predicate KeepsOrder(s: State, t: State, reference: string) {
    && s.nextId <= t.nextId
    && (forall id :: id in t.bookings && id !in s.bookings ==> t.bookings[id].order != Some(reference))
    && (forall id :: id in s.bookings ==>
          id in t.bookings && t.bookings[id].order == s.bookings[id].order && t.bookings[id].total == s.bookings[id].total)
    && (forall id :: id in s.bookings ==> id < s.nextId)
  }

  lemma {:induction false} AmountKept(s: State, t: State, reference: string, n: nat)
    requires KeepsOrder(s, t, reference)
    ensures AmountBelow(t.bookings, reference, n) == AmountBelow(s.bookings, reference, n)
  {
    if n > 0 {
      AmountKept(s, t, reference, n - 1);
    }
  }

  lemma {:induction false} AmountStops(bookings: Bookings, reference: string, n: nat, m: nat)
    requires n <= m && forall id :: id in bookings && bookings[id].order == Some(reference) ==> id < n
    ensures AmountBelow(bookings, reference, m) == AmountBelow(bookings, reference, n)
  {
    if n < m {
      AmountStops(bookings, reference, n, m - 1);
    }
  }

  lemma {:induction false} SettlingKeepsOrder(s: State, ids: seq<BookingId>, how: Settlement, reference: string)
    requires Sound(s) && NoRepeats(ids) && InDomain(s.bookings, ids)
    ensures KeepsOrder(s, SettledAll(s, ids, how), reference)
  {
    SettledAllRows(s, ids, how);
  }

  lemma {:induction false} OrderingKeepsOrder(s: State, o: Order, reference: string)
    requires Sound(s) && ReferenceTaken(s.bookings, reference)
    ensures KeepsOrder(s, Ordered(s, o).0, reference)
  {
    hide WithChildren, Claimed, AllClaimable, Balanced, WithinCapacity, RoomsNotShared;
    if Ordered(s, o).1.Placed? {
      ChildrenKeys(s.bookings, s.nextId, o, |o.rooms|, OrderStatus(o));
    }
  }

  lemma {:induction false} WaitingKeepsOrder(s: State, of: string, how: Settlement, reference: string)
    requires Sound(s)
    ensures KeepsOrder(s, SettledAll(s, WaitingChildren(s, of), how), reference)
  {
    ChildrenNoRepeats(s.bookings, of, s.nextId);
    FilterNoRepeats(Children(s, of), IsWaiting(s.bookings));
    SettlingKeepsOrder(s, WaitingChildren(s, of), how, reference);
  }

  lemma {:induction false} SameRowsKeepOrder(s: State, t: State, u: State, reference: string)
    requires KeepsOrder(s, t, reference) && SameRows(t, u)
    ensures KeepsOrder(s, u, reference)
  {
  }

  lemma {:induction false} CancellingOneKeepsOrder(s: State, c: Cancellation, f: Facts, reference: string)
    requires Sound(s) && c.booking in s.bookings
    ensures KeepsOrder(s, CancelledOne(s, s.bookings[c.booking], c, f).0, reference)
  {
    var (t, reply) := CancelledOne(s, s.bookings[c.booking], c, f);
    OneCancelRows(s, c, f);
    SettledKeepsOrder(s, c.booking, Cancel, reference);
    SameRowsKeepOrder(s, if reply.Done? then Settled(s, c.booking, Cancel) else s, t, reference);
  }

  lemma {:induction false} ItselfKeepsOrder(s: State, reference: string)
    requires Sound(s)
    ensures KeepsOrder(s, s, reference)
  {
  }

  lemma {:induction false} SettledKeepsOrder(s: State, id: BookingId, how: Settlement, reference: string)
    requires Sound(s) && id in s.bookings
    ensures KeepsOrder(s, Settled(s, id, how), reference) && KeepsOrder(s, s, reference)
  {
  }

  lemma {:induction false} CancellingAllKeepsOrder(s: State, anchor: BookingId, of: string, c: Cancellation,
      f: Facts, reference: string)
    requires Sound(s)
    ensures KeepsOrder(s, OrderCancelled(s, anchor, of, c, f).0, reference)
  {
    var (t, reply) := OrderCancelled(s, anchor, of, c, f);
    if !reply.NotCancelled? {
      var ids := Children(s, of);
      var accepted := AcceptedOf(s.bookings, ids, f);
      ChildrenNoRepeats(s.bookings, of, s.nextId);
      FilterNoRepeats(ids, IsAccepted(s.bookings, f));
      SettlingKeepsOrder(s, accepted, Cancel, reference);
      SettledAllRows(s, accepted, Cancel);
      SameRowsKeepOrder(s, SettledAll(s, accepted, Cancel), t, reference);
    }
  }

  lemma {:induction false} CancellingKeepsOrder(s: State, c: Cancellation, f: Facts, reference: string)
    requires Sound(s)
    ensures KeepsOrder(s, BookingCancelled(s, c, f).0, reference)
  {
    ItselfKeepsOrder(s, reference);
    if c.booking in s.bookings && OwnedBy(s.bookings[c.booking], c) && s.bookings[c.booking].version == c.version {
      var order := s.bookings[c.booking].order;
      if order.Some? && !(c.staff && c.single) {
        CancellingAllKeepsOrder(s, c.booking, order.value, c, f, reference);
      } else {
        CancellingOneKeepsOrder(s, c, f, reference);
      }
    }
  }

  lemma {:induction false} PayingKeepsOrder(s: State, id: BookingId, overdue: bool, reference: string)
    requires Sound(s)
    ensures KeepsOrder(s, Paid(s, id).0, reference)
    ensures KeepsOrder(s, PaymentExpired(s, id, overdue).0, reference)
  {
    if id in s.bookings {
      SettledKeepsOrder(s, id, Confirm, reference);
      SettledKeepsOrder(s, id, Expire, reference);
      if s.bookings[id].order.Some? {
        WaitingKeepsOrder(s, s.bookings[id].order.value, Confirm, reference);
        WaitingKeepsOrder(s, s.bookings[id].order.value, Expire, reference);
      }
    }
  }

  lemma {:induction false} CreatingKeepsOrder(s: State, c: Creation, reference: string)
    requires Sound(s)
    ensures KeepsOrder(s, Created(s, c).0, reference)
  {
  }

  lemma {:induction false} MovingKeepsOrder(s: State, m: Move, reference: string)
    requires Sound(s)
    ensures KeepsOrder(s, MovedTo(s, m).0, reference)
  {
  }

  lemma {:induction false} EventKeepsOrder(s: State, e: Event, reference: string)
    requires Sound(s) && ReferenceTaken(s.bookings, reference)
    ensures KeepsOrder(s, Apply(s, e), reference)
  {
    match e
    case CreateOne(c) => CreatingKeepsOrder(s, c, reference);
    case CreateOrder(o) => OrderingKeepsOrder(s, o, reference);
    case PaymentArrives(id) => PayingKeepsOrder(s, id, true, reference);
    case PaymentTimesOut(id, overdue) => PayingKeepsOrder(s, id, overdue, reference);
    case CancelBooking(c, f) => CancellingKeepsOrder(s, c, f, reference);
    case MoveRoom(m) => MovingKeepsOrder(s, m, reference);
    case EditStock(edit) =>
  }

  lemma {:induction false} StaysTaken(s: State, t: State, reference: string)
    requires KeepsOrder(s, t, reference) && ReferenceTaken(s.bookings, reference)
    ensures ReferenceTaken(t.bookings, reference)
  {
    var id :| id in s.bookings && s.bookings[id].order == Some(reference);
    assert id in t.bookings;
  }

  lemma {:induction false} HistoryKeepsAmount(s: State, events: seq<Event>, reference: string)
    requires Sound(s) && ReferenceTaken(s.bookings, reference)
    ensures var t := History(s, events);
      AmountBelow(t.bookings, reference, t.nextId) == AmountBelow(s.bookings, reference, s.nextId)
    decreases events
  {
    if events != [] {
      var u := Apply(s, events[0]);
      EventKeepsOrder(s, events[0], reference);
      StaysTaken(s, u, reference);
      EventKeepsSound(s, events[0]);
      AmountKept(s, u, reference, u.nextId);
      AmountStops(s.bookings, reference, s.nextId, u.nextId);
      HistoryKeepsAmount(u, events[1..], reference);
    }
  }

  // ---------------------------------------------------------------- placing the order

  lemma {:induction false} PlacedAmount(bookings: Bookings, first: BookingId, o: Order, n: nat, i: nat,
      status: BookingStatus.Status)
    requires i <= n <= |o.rooms| && Before(bookings, first) && !ReferenceTaken(bookings, o.reference)
    ensures AmountBelow(WithChildren(bookings, first, o, n, status), o.reference, first + i) == CheckoutAmount(o.rooms[..i])
  {
    var now := WithChildren(bookings, first, o, n, status);
    ChildrenKeys(bookings, first, o, n, status);
    if i == 0 {
      NothingBelow(now, o.reference, first);
    } else {
      PlacedAmount(bookings, first, o, n, i - 1, status);
      assert o.rooms[..i][..i - 1] == o.rooms[..i - 1];
    }
  }

  lemma {:induction false} NothingBelow(bookings: Bookings, reference: string, n: nat)
    requires forall id :: id in bookings && id < n ==> bookings[id].order != Some(reference)
    ensures AmountBelow(bookings, reference, n) == 0
  {
    if n > 0 {
      NothingBelow(bookings, reference, n - 1);
    }
  }

  lemma {:induction false} OrderAmount(s: State, o: Order)
    requires Sound(s) && Ordered(s, o).1.Placed?
    ensures var u := Ordered(s, o).0; AmountBelow(u.bookings, o.reference, u.nextId) == CheckoutAmount(o.rooms)
  {
    PlacedAmount(s.bookings, s.nextId, o, |o.rooms|, |o.rooms|, OrderStatus(o));
    assert o.rooms[..|o.rooms|] == o.rooms;
  }

  lemma {:induction false} RefundWithinAmount(t: State, reference: string, f: Facts)
    ensures Sum(Children(t, reference), TotalOf(t.bookings)) == AmountBelow(t.bookings, reference, t.nextId)
    ensures 0 <= RefundDue(t.bookings, Children(t, reference), f) <= AmountBelow(t.bookings, reference, t.nextId)
  {
    ChildrenSum(t.bookings, reference, t.nextId);
    DueIsBounded(t, Children(t, reference), f);
  }

  /** Whatever happens between checkout and cancellation, the refund an order's cancellation asks for is at most
      the amount its checkout asked for, which is also still the sum of its rows. */
  lemma {:induction false} RefundWithinCheckout(s: State, o: Order, events: seq<Event>, f: Facts)
    requires Sound(s) && Ordered(s, o).1.Placed?
    ensures var t := History(Ordered(s, o).0, events);
      && Sum(Children(t, o.reference), TotalOf(t.bookings)) == CheckoutAmount(o.rooms)
      && 0 <= RefundDue(t.bookings, Children(t, o.reference), f) <= CheckoutAmount(o.rooms)
  {
    var u := Ordered(s, o).0;
    OrderKeepsSound(s, o);
    OrderIsTaken(s, o);
    OrderAmount(s, o);
    HistoryKeepsAmount(u, events, o.reference);
    RefundWithinAmount(History(u, events), o.reference, f);
  }

  lemma {:induction false} OrderIsTaken(s: State, o: Order)
    requires Sound(s) && Ordered(s, o).1.Placed?
    ensures ReferenceTaken(Ordered(s, o).0.bookings, o.reference)
  {
    ChildrenKeys(s.bookings, s.nextId, o, |o.rooms|, OrderStatus(o));
    assert Ordered(s, o).0.bookings[s.nextId].order == Some(o.reference);
  }
}
