/** Online bookings whose checkout cannot be opened: one room is rolled back, an order is reported as an error but
    stays committed until its hold expires; and what the expiry of a hold gives back, however much later. */
module FailedCheckout {
  import opened BookingStatus
  import opened Calendar
  import opened CancellationModel
  import opened Collections
  import opened HotelInvariant
  import opened HotelModel
  import opened Inventory
  import opened InventoryLocks
  import opened OrderRefunds
  import opened RowHistory

  // ---------------------------------------------------------------- one room

  /** Accepted and claimed; what is left is the payment. */
  ghost predicate ReadyToPay(s: State, c: Creation) {
    Accepts(c) && c.quoteValid && Claimable(s, c)
  }

  /** A booking is made iff it is claimed and, when paid online, still free with an open checkout.  Any other reply
      leaves the stock as it was, and one that comes after the claim leaves no trace at all. */
  lemma {:induction false} UnpaidRoomIsRolledBack(s: State, c: Creation)
    ensures var (t, reply) := Created(s, c);
      && (reply.Booked? <==> ReadyToPay(s, c) && (PaidOnline(c.payment) ==> c.stillFree && c.checkout))
      && (!reply.Booked? ==> t.stock == s.stock)
      && (ReadyToPay(s, c) && !reply.Booked? ==> t == s)
  {
  }

  lemma {:induction false} HistoryJoins(s: State, a: seq<Event>, b: seq<Event>)
    ensures History(s, a + b) == History(History(s, a), b)
    decreases a
  {
    if a == [] {
      assert a + b == b;
    } else {
      assert (a + b)[1..] == a[1..] + b;
      HistoryJoins(Apply(s, a[0]), a[1..], b);
    }
  }

  lemma {:induction false} OneEvent(s: State, e: Event)
    ensures History(s, [e]) == Apply(s, e)
  {
    hide Apply;
    assert [e][1..] == [] && History(Apply(s, e), []) == Apply(s, e);
  }

  /** A history is the same without a room whose checkout failed. */
  lemma {:induction false} FailedRoomIsInvisible(s: State, before: seq<Event>, c: Creation, after: seq<Event>)
    requires ReadyToPay(History(s, before), c) && PaidOnline(c.payment) && !c.checkout
    ensures History(s, before + [CreateOne(c)] + after) == History(s, before + after)
  {
    var t := History(s, before);
    UnpaidRoomIsRolledBack(t, c);
    HistoryJoins(s, before, [CreateOne(c)] + after);
    HistoryJoins(s, before, after);
    assert before + [CreateOne(c)] + after == before + ([CreateOne(c)] + after);
    assert ([CreateOne(c)] + after)[1..] == after;
    assert Apply(t, CreateOne(c)) == t;
  }

  // ---------------------------------------------------------------- several rooms

  /** Accepted, all claimed under an unused reference, to be paid online and still free. */
  ghost predicate OrderAwaitsPayment(s: State, o: Order) {
    && AcceptsOrder(o) && AllClaimable(s, o) && !ReferenceTaken(s.bookings, o.reference)
    && PaidOnline(o.payment) && o.stillFree
  }

  /** An order is committed with an error iff only its checkout failed, and then it is committed exactly as if the
      checkout had been opened; no other error changes anything. */
  lemma {:induction false} OrderErrorWithHoldIff(s: State, o: Order)
    ensures var (t, reply) := Ordered(s, o);
      && (reply.Placed? && !reply.ok <==> OrderAwaitsPayment(s, o) && !o.checkout)
      && (reply.Placed? ==> t == Ordered(s, o.(checkout := true)).0)
      && (!reply.Placed? ==> t == s)
  {
    var paid := o.(checkout := true);
    assert AcceptsOrder(paid) == AcceptsOrder(o) && AllClaimable(s, paid) == AllClaimable(s, o);
    assert OrderClaims(paid) == OrderClaims(o);
    SameChildren(s.bookings, s.nextId, o, paid, |o.rooms|, OrderStatus(o));
  }

  lemma {:induction false} SameChildren(bookings: Bookings, first: BookingId, o: Order, p: Order, n: nat, status: Status)
    requires p == o.(checkout := p.checkout) && n <= |o.rooms|
    ensures WithChildren(bookings, first, o, n, status) == WithChildren(bookings, first, p, n, status)
  {
    if n > 0 {
      SameChildren(bookings, first, o, p, n - 1, status);
    }
  }

  const TWO_ROOMS := [RoomRequest("double", None, 100), RoomRequest("double", None, 100)]

  function StockOfTwo(): StockEdit {
    StockEdit(SetTo, 2, [("double", 0)], 0, true)
  }

  function UnpaidOrder(): Order {
    Order("order", 0, 1, "guest", "EUR", TWO_ROOMS, true, {}, {"double"}, StripeCheckout, true, false)
  }

  /** It does happen: a new hotel with two double rooms for one night, and an online order of both whose checkout
      fails.  The order is reported as an error and has sold out the night. */
  lemma {:induction false} FailedOrderSellsOut()
    ensures var s := History(NEW_HOTEL, [EditStock(StockOfTwo())]);
      var (t, reply) := Ordered(s, UnpaidOrder());
      && BookedAt(s.stock, "double", 0) == 0
      && reply == Placed(0, false)
      && t.stock[("double", 0)] == Units(2, 2)
  {
    var e, o := StockOfTwo(), UnpaidOrder();
    var s := History(NEW_HOTEL, [EditStock(e)]);
    assert e.cells[0] in e.cells;
    assert forall i :: 0 <= i < |e.cells| ==> CellEditable(NEW_HOTEL.stock, e, e.cells[i]);
    assert StockEdited(NEW_HOTEL, e) == (NEW_HOTEL.(stock := Edited(map[], e)), true);
    OneEvent(NEW_HOTEL, EditStock(e));
    assert s.stock[("double", 0)] == Units(2, 0);
    assert o.rooms[1..][1..] == [];
    assert Wanted(o.rooms[1..], "double") == 1 && Wanted(o.rooms, "double") == 2;
    assert RoomIds(o.rooms[1..]) == [] && RoomIds(o.rooms) == [];
    assert TypeIds(o.rooms[1..]) == ["double"];
    assert forall t :: t in TypeIds(o.rooms) ==> t == "double";
    assert AllClaimable(s, o);
    OrderErrorWithHoldIff(s, o);
    OrderHoldsAllOrNone(s, o);
  }

  // ---------------------------------------------------------------- what an expiry gives back

  /** The rows an expiry closes: the booking, or every room of its order that waits for payment. */
  ghost function Closing(t: State, id: BookingId): set<BookingId>
    requires id in t.bookings
  {
    set x | x in t.bookings && t.bookings[x].status == PaymentPending &&
      (x == id || (t.bookings[id].order.Some? && t.bookings[x].order == t.bookings[id].order))
  }

  /** Of some rows, those that hold a unit of a type on a night. */
  ghost function HoldersAmong(bookings: Bookings, ids: set<BookingId>, typeId: TypeId, night: Day): set<BookingId> {
    set x | x in ids && x in bookings && HoldsUnit(bookings[x], typeId, night)
  }

  /** Exactly these rows are expired; every other row is as it was. */
  ghost predicate OnlyExpired(was: Bookings, now: Bookings, ids: set<BookingId>) {
    now.Keys == was.Keys &&
    forall x :: x in was ==> now[x] == if x in ids then was[x].(status := Expired) else was[x]
  }

  /** The same stock is for sale. */
  ghost predicate SameStock(was: Stock, now: Stock) {
    now.Keys == was.Keys && forall k :: k in was ==> now[k].available == was[k].available
  }

  lemma {:induction false} SettlingKeepsStock(s: State, ids: seq<BookingId>, how: Settlement)
    requires InDomain(s.bookings, ids)
    ensures SameStock(s.stock, SettledAll(s, ids, how).stock)
  {
    if ids != [] {
      SettlingKeepsStock(s, ids[..|ids| - 1], how);
    }
  }

  lemma {:induction false} WaitingAreClosed(t: State, id: BookingId)
    requires Sound(t) && id in t.bookings && t.bookings[id].order.Some?
    ensures var ids := WaitingChildren(t, t.bookings[id].order.value);
      && NoRepeats(ids)
      && forall x :: x in ids <==>
           (x in t.bookings && t.bookings[x].status == PaymentPending && t.bookings[x].order == t.bookings[id].order)
  {
    var reference := t.bookings[id].order.value;
    ChildrenNoRepeats(t.bookings, reference, t.nextId);
    FilterNoRepeats(Children(t, reference), IsWaiting(t.bookings));
  }

  lemma {:induction false} ExpiryRows(t: State, id: BookingId)
    requires Sound(t) && id in t.bookings && t.bookings[id].status == PaymentPending
    ensures var (u, expired) := PaymentExpired(t, id, true);
      expired && OnlyExpired(t.bookings, u.bookings, Closing(t, id)) && SameStock(t.stock, u.stock)
  {
    if t.bookings[id].order.Some? {
      var ids := WaitingChildren(t, t.bookings[id].order.value);
      WaitingAreClosed(t, id);
      SettledAllRows(t, ids, Expire);
      SettlingKeepsStock(t, ids, Expire);
    }
  }

  lemma {:induction false} CountIsHolders(t: State, typeId: TypeId, night: Day)
    requires Sound(t)
    ensures BookedAt(t.stock, typeId, night) == |Holders(t.bookings, typeId, night)|
  {
    assert BookedAt(t.stock, typeId, night) ==
      |Holders(t.bookings, typeId, night)| + ClaimedAt(NO_CLAIMS, typeId, night);
  }

  /** Rows that expire no longer hold their units, and all others still do. */
  lemma {:induction false} HoldersLeft(was: Bookings, now: Bookings, ids: set<BookingId>, typeId: TypeId, night: Day)
    requires OnlyExpired(was, now, ids)
    ensures |Holders(now, typeId, night)| == |Holders(was, typeId, night)| - |HoldersAmong(was, ids, typeId, night)|
  {
    assert Holders(now, typeId, night) == Holders(was, typeId, night) - HoldersAmong(was, ids, typeId, night);
    assert HoldersAmong(was, ids, typeId, night) <= Holders(was, typeId, night);
  }

  /** In any sound state an expiry closes exactly the waiting rows it should, and lowers each type's count on each
      night by exactly the units they held. */
  lemma {:induction false} ExpiryExact(t: State, id: BookingId)
    requires Sound(t) && id in t.bookings && t.bookings[id].status == PaymentPending
    ensures var (u, expired) := PaymentExpired(t, id, true);
      && expired && OnlyExpired(t.bookings, u.bookings, Closing(t, id)) && SameStock(t.stock, u.stock)
      && (forall typeId, night :: BookedAt(u.stock, typeId, night) ==
            BookedAt(t.stock, typeId, night) - |HoldersAmong(t.bookings, Closing(t, id), typeId, night)|)
  {
    var u := PaymentExpired(t, id, true).0;
    ExpiryRows(t, id);
    PayAndExpireKeepSound(t, id, true);
    hide PaymentExpired, Sound, OnlyExpired, SameStock, Closing, HoldersAmong;
    forall typeId, night
      ensures BookedAt(u.stock, typeId, night) ==
        BookedAt(t.stock, typeId, night) - |HoldersAmong(t.bookings, Closing(t, id), typeId, night)|
    {
      CountIsHolders(t, typeId, night);
      CountIsHolders(u, typeId, night);
      HoldersLeft(t.bookings, u.bookings, Closing(t, id), typeId, night);
    }
  }

  /** Units come back as `units` says, and only these rows change. */
  ghost predicate GivesBack(t: State, u: State, ids: set<BookingId>, units: (TypeId, Day) -> int) {
    && OnlyExpired(t.bookings, u.bookings, ids) && SameStock(t.stock, u.stock)
    && forall typeId, night ::
         BookedAt(u.stock, typeId, night) == BookedAt(t.stock, typeId, night) - units(typeId, night)
  }

  // ---------------------------------------------------------------- one room's hold, any time later

  function UnitOf(room: Option<RoomId>, typeId: TypeId, startsOn: Day, endsOn: Day): (TypeId, Day) -> int {
    (t, night) => if room.None? && t == typeId && OccupiesNight(startsOn, endsOn, night) then 1 else 0
  }

  /** However long a room booked online has been waiting for its payment, and whatever happened meanwhile, its
      expiry gives back one unit on each of its nights, when it has no room of its own, and changes no other row. */
  lemma {:induction false} RoomHoldReturned(s: State, c: Creation, events: seq<Event>)
    requires Sound(s) && Created(s, c).1.Booked? && PaidOnline(c.payment)
    requires var t := History(Created(s, c).0, events);
      s.nextId in t.bookings && t.bookings[s.nextId].status == PaymentPending
    ensures var t := History(Created(s, c).0, events);
      var (u, expired) := PaymentExpired(t, s.nextId, true);
      expired && GivesBack(t, u, {s.nextId}, UnitOf(ClaimedRoom(s, c), c.typeId, c.startsOn, c.endsOn))
  {
    var id, room := s.nextId, ClaimedRoom(s, c);
    CreateKeepsSound(s, c);
    HistoryEvolves(Created(s, c).0, events);
    var t := History(Created(s, c).0, events);
    var row := RowOf(c, room, PaymentPending);
    assert t.bookings[id] == row;
    hide History, Created, Sound, RowsEvolve;
    ExpiryExact(t, id);
    assert Closing(t, id) == {id};
    forall typeId, night
      ensures |HoldersAmong(t.bookings, {id}, typeId, night)| ==
        UnitOf(room, c.typeId, c.startsOn, c.endsOn)(typeId, night)
    {
      assert HoldersAmong(t.bookings, {id}, typeId, night) == if HoldsUnit(row, typeId, night) then {id} else {};
    }
  }

  // ---------------------------------------------------------------- an order's hold, any time later

  /** The rows the order added. */
  ghost function OwnRows(s: State, o: Order): set<BookingId> {
    Ordered(s, o).0.bookings.Keys - s.bookings.Keys
  }

  lemma {:induction false} OwnRowsAdded(s: State, o: Order)
    requires Sound(s) && Ordered(s, o).1.Placed?
    ensures var placed := Ordered(s, o).0;
      && s.nextId in OwnRows(s, o)
      && (forall x :: x in OwnRows(s, o) ==>
            placed.bookings[x].order == Some(o.reference) && placed.bookings[x].status == OrderStatus(o))
      && (forall x :: x in placed.bookings && placed.bookings[x].order == Some(o.reference) ==> x in OwnRows(s, o))
      && (forall x :: x in s.bookings ==> x in placed.bookings && placed.bookings[x] == s.bookings[x])
  {
    ChildrenKeys(s.bookings, s.nextId, o, |o.rooms|, OrderStatus(o));
    RowsAreBefore(s.bookings, s.nextId);
    hide WithChildren, Claimed, AllClaimable, Sound, Before;
    BeforeIsBelow(s.bookings, s.nextId);
  }

  lemma {:induction false} BeforeIsBelow(bookings: Bookings, first: BookingId)
    requires Before(bookings, first)
    ensures forall id :: id in bookings ==> id < first
  {
  }

  /** Every room of the order still waits for payment. */
  ghost predicate StillWaits(s: State, o: Order, t: State) {
    forall x :: x in OwnRows(s, o) ==> x in t.bookings && t.bookings[x].status == PaymentPending
  }

  function UnitsWanted(o: Order): (TypeId, Day) -> int {
    (t, night) => if OccupiesNight(o.startsOn, o.endsOn, night) then Wanted(o.rooms, t) else 0
  }

  lemma {:induction false} HoldersAdded(was: Bookings, now: Bookings, typeId: TypeId, night: Day)
    requires forall x :: x in was ==> x in now && now[x] == was[x]
    ensures |Holders(now, typeId, night)|
         == |Holders(was, typeId, night)| + |HoldersAmong(now, now.Keys - was.Keys, typeId, night)|
  {
    var more := HoldersAmong(now, now.Keys - was.Keys, typeId, night);
    assert Holders(now, typeId, night) == Holders(was, typeId, night) + more;
    assert Holders(was, typeId, night) !! more;
  }

  /** Placing an order takes what it wants from the same stock. */
  lemma {:induction false} OrderTakes(s: State, o: Order)
    requires Ordered(s, o).1.Placed?
    ensures SameStock(s.stock, Ordered(s, o).0.stock)
    ensures forall typeId, night ::
      BookedAt(Ordered(s, o).0.stock, typeId, night) == BookedAt(s.stock, typeId, night) + UnitsWanted(o)(typeId, night)
  {
    OrderHoldsAllOrNone(s, o);
    hide WithChildren, BookedAt, Wanted, AllClaimable;
  }

  /** The units the order's own rows hold are the units it wanted. */
  lemma {:induction false} OwnRowsHold(s: State, o: Order, typeId: TypeId, night: Day)
    requires Sound(s) && Ordered(s, o).1.Placed?
    ensures |HoldersAmong(Ordered(s, o).0.bookings, OwnRows(s, o), typeId, night)| == UnitsWanted(o)(typeId, night)
  {
    var t := Ordered(s, o).0;
    OrderKeepsSound(s, o);
    OwnRowsAdded(s, o);
    OrderTakes(s, o);
    hide Ordered, Sound, BookedAt, UnitsWanted, HoldersAmong, Holders;
    CountIsHolders(s, typeId, night);
    CountIsHolders(t, typeId, night);
    HoldersAdded(s.bookings, t.bookings, typeId, night);
  }

  /** While they all wait, the order's rows are exactly its children and exactly as they were placed. */
  lemma {:induction false} WaitingAsPlaced(s: State, o: Order, events: seq<Event>)
    requires Sound(s) && Ordered(s, o).1.Placed? && PaidOnline(o.payment)
    requires StillWaits(s, o, History(Ordered(s, o).0, events))
    ensures var t := History(Ordered(s, o).0, events);
      && Sound(t)
      && (forall x :: x in OwnRows(s, o) ==> t.bookings[x] == Ordered(s, o).0.bookings[x])
      && (forall x :: x in t.bookings && t.bookings[x].order == Some(o.reference) ==> x in OwnRows(s, o))
  {
    var placed := Ordered(s, o).0;
    OrderKeepsSound(s, o);
    OrderIsTaken(s, o);
    OwnRowsAdded(s, o);
    HistoryEvolves(placed, events);
    HistoryKeepsOrder(placed, events, o.reference);
    hide Ordered, Sound, History;
  }

  /** The waiting rows of the order are those an expiry closes. */
  lemma {:induction false} OrderCloses(s: State, o: Order, events: seq<Event>, id: BookingId)
    requires Sound(s) && Ordered(s, o).1.Placed? && PaidOnline(o.payment) && id in OwnRows(s, o)
    requires StillWaits(s, o, History(Ordered(s, o).0, events))
    ensures Closing(History(Ordered(s, o).0, events), id) == OwnRows(s, o)
  {
    WaitingAsPlaced(s, o, events);
    OwnRowsAdded(s, o);
    hide Ordered, Sound, History;
  }

  /** However long an order has been waiting for its payment, and whatever happened meanwhile: the expiry through any
      of its rooms lowers each type's count on each night by exactly the order's rooms, expires exactly its rows and
      changes no other. */
  lemma {:induction false} OrderHoldReturned(s: State, o: Order, events: seq<Event>, id: BookingId)
    requires Sound(s) && Ordered(s, o).1.Placed? && PaidOnline(o.payment) && id in OwnRows(s, o)
    requires StillWaits(s, o, History(Ordered(s, o).0, events))
    ensures var t := History(Ordered(s, o).0, events);
      var (u, expired) := PaymentExpired(t, id, true);
      expired && GivesBack(t, u, OwnRows(s, o), UnitsWanted(o))
  {
    var placed, t := Ordered(s, o).0, History(Ordered(s, o).0, events);
    WaitingAsPlaced(s, o, events);
    OrderCloses(s, o, events, id);
    forall typeId, night
      ensures |HoldersAmong(t.bookings, OwnRows(s, o), typeId, night)| == UnitsWanted(o)(typeId, night)
    {
      OwnRowsHold(s, o, typeId, night);
      hide History, Ordered, Sound, UnitsWanted;
      assert HoldersAmong(t.bookings, OwnRows(s, o), typeId, night)
          == HoldersAmong(placed.bookings, OwnRows(s, o), typeId, night);
    }
    hide History, Ordered, Sound, Closing, HoldersAmong, UnitsWanted, PaymentExpired, OnlyExpired, SameStock;
    ExpiryExact(t, id);
  }

  /** Expired at once, the hold leaves the stock exactly as it was before the order. */
  lemma {:induction false} ExpiryUndoesOrder(s: State, o: Order)
    requires Sound(s) && Ordered(s, o).1.Placed? && PaidOnline(o.payment)
    ensures var t := Ordered(s, o).0;
      var (u, expired) := PaymentExpired(t, s.nextId, true);
      && expired && u.stock == s.stock && OnlyExpired(t.bookings, u.bookings, OwnRows(s, o))
      && (forall x :: x in s.bookings ==> x in u.bookings && u.bookings[x] == s.bookings[x])
  {
    var t := Ordered(s, o).0;
    var u := PaymentExpired(t, s.nextId, true).0;
    hide Ordered, Sound, PaymentExpired, SameStock, BookedAt, UnitsWanted, OnlyExpired, GivesBack;
    OwnRowsAdded(s, o);
    OrderTakes(s, o);
    assert History(t, []) == t;
    assert StillWaits(s, o, t);
    OrderHoldReturned(s, o, [], s.nextId);
    TakenAndReturned(s, t, u, OwnRows(s, o), UnitsWanted(o));
    OthersAreKept(s, o, u);
  }

  lemma {:induction false} TakenAndReturned(s: State, t: State, u: State, ids: set<BookingId>, units: (TypeId, Day) -> int)
    requires SameStock(s.stock, t.stock) && GivesBack(t, u, ids, units)
    requires forall typeId, night ::
      BookedAt(t.stock, typeId, night) == BookedAt(s.stock, typeId, night) + units(typeId, night)
    ensures u.stock == s.stock && OnlyExpired(t.bookings, u.bookings, ids)
  {
    hide OnlyExpired;
    forall k | k in s.stock
      ensures k in u.stock && u.stock[k] == s.stock[k]
    {
      assert BookedAt(u.stock, k.0, k.1) == BookedAt(s.stock, k.0, k.1);
    }
  }

  lemma {:induction false} OthersAreKept(s: State, o: Order, u: State)
    requires OnlyExpired(Ordered(s, o).0.bookings, u.bookings, OwnRows(s, o))
    requires forall x :: x in s.bookings ==>
      x in Ordered(s, o).0.bookings && Ordered(s, o).0.bookings[x] == s.bookings[x]
    ensures forall x :: x in s.bookings ==> x in u.bookings && u.bookings[x] == s.bookings[x]
  {
    hide Ordered;
  }
}
