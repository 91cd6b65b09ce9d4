/** Conservation of inventory over every history of a hotel that keeps its own stock. */
module HotelInvariant {
  import opened BookingStatus
  import opened Calendar
  import opened CancellationModel
  import opened Collections
  import opened HotelModel
  import opened Inventory
  import opened InventoryLocks

  /** The statuses a local booking can have between transactions. */
  predicate AtRest(status: Status) {
    status == PaymentPending || status == Confirmed || status == AvailabilityFailed || status == Cancelled || status == Expired
  }

  ghost predicate RowsInOrder(bookings: Bookings, nextId: BookingId) {
    forall id :: id in bookings ==>
      id < nextId && bookings[id].startsOn < bookings[id].endsOn && AtRest(bookings[id].status)
  }

  /** The ledger agrees with the bookings, nothing is oversold and no room is shared. */
  ghost predicate Sound(s: State) {
    && Balanced(s.bookings, s.stock, NO_CLAIMS)
    && WithinCapacity(s.stock)
    && RoomsNotShared(s.bookings)
    && RowsInOrder(s.bookings, s.nextId)
  }

  // ---------------------------------------------------------------- rooms

  lemma {:induction false} BlockingIsMutual(a: Booking, b: Booking)
    requires a.roomId.Some? && b.roomId.Some? && Blocking(b.status)
    ensures BlocksRoom(a, b.roomId.value, b.startsOn, b.endsOn) ==>
      BlocksRoom(b, a.roomId.value, a.startsOn, a.endsOn) && Blocking(a.status)
  {
  }

  lemma {:induction false} InsertKeepsRooms(bookings: Bookings, id: BookingId, b: Booking)
    requires RoomsNotShared(bookings) && id !in bookings
    requires b.roomId.Some? && Blocking(b.status) ==> RoomIsFree(bookings, b.roomId.value, b.startsOn, b.endsOn)
    ensures RoomsNotShared(bookings[id := b])
  {
    var now := bookings[id := b];
    forall i, j | i in now && j in now && i != j && now[j].roomId.Some? && Blocking(now[j].status)
      ensures !BlocksRoom(now[i], now[j].roomId.value, now[j].startsOn, now[j].endsOn)
    {
      if i == id && b.roomId.Some? {
        BlockingIsMutual(b, now[j]);
      }
    }
  }

  /** A row that stops blocking, or keeps its room and stay, cannot start to share one. */
  lemma {:induction false} RewriteKeepsRooms(bookings: Bookings, id: BookingId, b: Booking)
    requires RoomsNotShared(bookings) && id in bookings
    requires b.startsOn == bookings[id].startsOn && b.endsOn == bookings[id].endsOn
    requires Blocking(b.status) && b.roomId.Some? ==>
      (b.roomId == bookings[id].roomId && Blocking(bookings[id].status)) ||
      RoomIsFree(bookings, b.roomId.value, b.startsOn, b.endsOn)
    ensures RoomsNotShared(bookings[id := b])
  {
    var now := bookings[id := b];
    forall i, j | i in now && j in now && i != j && now[j].roomId.Some? && Blocking(now[j].status)
      ensures !BlocksRoom(now[i], now[j].roomId.value, now[j].startsOn, now[j].endsOn)
    {
      if i == id && b.roomId.Some? {
        assert !BlocksRoom(bookings[id], now[j].roomId.value, now[j].startsOn, now[j].endsOn);
        BlockingIsMutual(b, now[j]);
      }
    }
  }

  // ---------------------------------------------------------------- one room

  lemma {:induction false} InsertKeepsSound(s: State, stock: Stock, claims: Claims, b: Booking)
    requires Sound(s) && Balanced(s.bookings, stock, claims) && WithinCapacity(stock)
    requires b.startsOn == claims.startsOn < b.endsOn == claims.endsOn && AtRest(b.status)
    requires claims.units == if b.roomId.None? && Holding(b.status) then map[b.typeId := 1] else map[]
    requires b.roomId.Some? && Blocking(b.status) ==> RoomIsFree(s.bookings, b.roomId.value, b.startsOn, b.endsOn)
    ensures Sound(Inserted(s.(stock := stock), b))
  {
    InsertKeepsBalance(s.bookings, stock, claims, s.nextId, b);
    InsertKeepsRooms(s.bookings, s.nextId, b);
    var now := s.bookings[s.nextId := b];
    var rest := if b.roomId.None? && Holding(b.status)
      then claims.(units := claims.units[b.typeId := (UnitsOf(claims, b.typeId) - 1) as nat]) else claims;
    SameClaims(now, stock, rest, NO_CLAIMS);
  }

  /** The balance depends on the units claimed per night only. */
  lemma {:induction false} SameClaims(bookings: Bookings, stock: Stock, a: Claims, b: Claims)
    requires Balanced(bookings, stock, a)
    requires forall typeId, night :: ClaimedAt(a, typeId, night) == ClaimedAt(b, typeId, night)
    ensures Balanced(bookings, stock, b)
  {
    forall typeId, night
      ensures BookedAt(stock, typeId, night) == |Holders(bookings, typeId, night)| + ClaimedAt(b, typeId, night)
    {
      assert BookedAt(stock, typeId, night) == |Holders(bookings, typeId, night)| + ClaimedAt(a, typeId, night);
    }
  }

  lemma {:induction false} CreateKeepsSound(s: State, c: Creation)
    requires Sound(s)
    ensures Sound(Created(s, c).0)
  {
    var none := Claims(map[], c.startsOn, c.endsOn);
    SameClaims(s.bookings, s.stock, NO_CLAIMS, none);
    if Accepts(c) {
      if !c.quoteValid || !Claimable(s, c) {
        InsertKeepsSound(s, s.stock, none, RowOf(c, c.roomId, AvailabilityFailed));
      } else {
        var room := ClaimedRoom(s, c);
        var status := if PaidOnline(c.payment) then PaymentPending else Confirmed;
        if room.None? {
          ReserveKeepsBalance(s.bookings, s.stock, none, c.typeId, 1);
          InsertKeepsSound(s, StockAfterClaim(s, c), none.(units := map[c.typeId := 1]), RowOf(c, room, status));
        } else {
          InsertKeepsSound(s, s.stock, none, RowOf(c, room, status));
        }
      }
    }
  }

  // ---------------------------------------------------------------- several rooms

  lemma {:induction false} WantedIff(rooms: seq<RoomRequest>, typeId: TypeId)
    ensures typeId in TypeIds(rooms) <==> Wanted(rooms, typeId) > 0
  {
    if rooms != [] {
      WantedIff(rooms[1..], typeId);
    }
  }

  lemma {:induction false} OrderUnits(o: Order, typeId: TypeId)
    ensures UnitsOf(OrderClaims(o), typeId) == Wanted(o.rooms, typeId)
  {
    WantedIff(o.rooms, typeId);
  }

  /** All the claims of an order taken at once: nothing is oversold. */
  lemma {:induction false} ClaimsKeepBalance(s: State, o: Order)
    requires Sound(s) && AllClaimable(s, o)
    ensures Balanced(s.bookings, Claimed(s.stock, OrderClaims(o)), OrderClaims(o))
    ensures WithinCapacity(Claimed(s.stock, OrderClaims(o)))
  {
    var claims := OrderClaims(o);
    var after := Claimed(s.stock, claims);
    forall t, night
      ensures BookedAt(after, t, night) == |Holders(s.bookings, t, night)| + ClaimedAt(claims, t, night)
    {
      assert BookedAt(s.stock, t, night) == |Holders(s.bookings, t, night)|;
      OrderUnits(o, t);
      WantedIff(o.rooms, t);
      if ClaimedAt(claims, t, night) > 0 {
        assert (t, night) in s.stock;
      }
    }
    forall k | k in after
      ensures 0 <= after[k].booked <= after[k].available
    {
      assert 0 <= s.stock[k].booked <= s.stock[k].available;
      OrderUnits(o, k.0);
      WantedIff(o.rooms, k.0);
      if ClaimedAt(claims, k.0, k.1) > 0 {
        assert k == (k.0, k.1);
      }
    }
  }

  /** Units of the rooms not yet inserted. */
  function ClaimsFrom(o: Order, n: nat): Claims
    requires n <= |o.rooms|
  {
    Claims(UnitsByType(o.rooms[n..]), o.startsOn, o.endsOn)
  }

  lemma {:induction false} UnitsFrom(o: Order, n: nat, typeId: TypeId)
    requires n <= |o.rooms|
    ensures UnitsOf(ClaimsFrom(o, n), typeId) == Wanted(o.rooms[n..], typeId)
  {
    WantedIff(o.rooms[n..], typeId);
  }

  lemma {:induction false} ChildrenKeys(bookings: Bookings, first: BookingId, o: Order, n: nat, status: Status)
    requires n <= |o.rooms|
    ensures var now := WithChildren(bookings, first, o, n, status);
      && (forall id :: id in now <==> id in bookings || first <= id < first + n)
      && (forall id :: id in bookings && !(first <= id < first + n) ==> now[id] == bookings[id])
      && (forall id :: first <= id < first + n ==> id in now && now[id] == ChildOf(o, id - first, status))
  {
    if n > 0 {
      hide ChildOf;
      ChildrenKeys(bookings, first, o, n - 1, status);
      var before := WithChildren(bookings, first, o, n - 1, status);
      assert WithChildren(bookings, first, o, n, status) == before[first + n - 1 := ChildOf(o, n - 1, status)];
      hide WithChildren;
    }
  }

  lemma {:induction false} UnitsStep(o: Order, n: nat, typeId: TypeId)
    requires n < |o.rooms|
    ensures UnitsOf(ClaimsFrom(o, n), typeId) ==
      UnitsOf(ClaimsFrom(o, n + 1), typeId) + if o.rooms[n].roomId.None? && o.rooms[n].roomTypeId == typeId then 1 else 0
  {
    UnitsFrom(o, n, typeId);
    UnitsFrom(o, n + 1, typeId);
    assert o.rooms[n..][1..] == o.rooms[n + 1..] && o.rooms[n..][0] == o.rooms[n];
  }

  lemma {:induction false} ChildKeepsBalance(bookings: Bookings, stock: Stock, o: Order, n: nat, id: BookingId,
      status: Status)
    requires n < |o.rooms| && Holding(status) && id !in bookings
    requires Balanced(bookings, stock, ClaimsFrom(o, n))
    ensures Balanced(bookings[id := ChildOf(o, n, status)], stock, ClaimsFrom(o, n + 1))
  {
    var child := ChildOf(o, n, status);
    var claims := ClaimsFrom(o, n);
    UnitsStep(o, n, child.typeId);
    InsertKeepsBalance(bookings, stock, claims, id, child);
    var rest := if child.roomId.None?
      then claims.(units := claims.units[child.typeId := (UnitsOf(claims, child.typeId) - 1) as nat]) else claims;
    forall typeId, night
      ensures ClaimedAt(rest, typeId, night) == ClaimedAt(ClaimsFrom(o, n + 1), typeId, night)
    {
      UnitsStep(o, n, typeId);
    }
    SameClaims(bookings[id := child], stock, rest, ClaimsFrom(o, n + 1));
  }

  /** Every id so far was handed out before `first`. */
  ghost predicate Before(bookings: Bookings, first: BookingId) {
    forall id :: id in bookings ==> id < first
  }

  lemma {:induction false} NextIsNew(bookings: Bookings, first: BookingId, o: Order, n: nat, status: Status)
    requires n <= |o.rooms| && Before(bookings, first)
    ensures Before(WithChildren(bookings, first, o, n, status), first + n)
  {
    if n > 0 {
      NextIsNew(bookings, first, o, n - 1, status);
    }
  }

  lemma {:induction false} AfterIsNew(bookings: Bookings, first: BookingId)
    requires Before(bookings, first)
    ensures first !in bookings
  {
  }

  /** Inserting the children one by one turns each claim into a booking. */
  lemma {:induction false} ChildrenKeepBalance(bookings: Bookings, first: BookingId, stock: Stock, o: Order,
      n: nat, status: Status)
    requires Before(bookings, first) && n <= |o.rooms| && Holding(status)
    requires Balanced(bookings, stock, OrderClaims(o))
    ensures Balanced(WithChildren(bookings, first, o, n, status), stock, ClaimsFrom(o, n))
  {
    if n == 0 {
      assert o.rooms[0..] == o.rooms;
    } else {
      hide Balanced, Before;
      ChildrenKeepBalance(bookings, first, stock, o, n - 1, status);
      NextIsNew(bookings, first, o, n - 1, status);
      AfterIsNew(WithChildren(bookings, first, o, n - 1, status), first + n - 1);
      ChildKeepsBalance(WithChildren(bookings, first, o, n - 1, status), stock, o, n - 1, first + n - 1, status);
    }
  }

  /** The individual rooms of a list of requests, by position. */
  lemma {:induction false} RoomIdsOf(rooms: seq<RoomRequest>, i: nat, j: nat)
    requires i < j < |rooms| && rooms[i].roomId.Some? && rooms[j].roomId.Some? && NoRepeats(RoomIds(rooms))
    ensures rooms[i].roomId != rooms[j].roomId
  {
    if i == 0 {
      RoomIdListed(rooms[1..], j - 1);
      var rest := RoomIds(rooms[1..]);
      assert RoomIds(rooms) == [rooms[0].roomId.value] + rest;
      var k :| 0 <= k < |rest| && rest[k] == rooms[j].roomId.value;
      assert RoomIds(rooms)[0] != RoomIds(rooms)[k + 1];
    } else {
      var head := if rooms[0].roomId.Some? then [rooms[0].roomId.value] else [];
      assert RoomIds(rooms) == head + RoomIds(rooms[1..]);
      assert forall k :: 0 <= k < |RoomIds(rooms[1..])| ==> RoomIds(rooms[1..])[k] == RoomIds(rooms)[k + |head|];
      RoomIdsOf(rooms[1..], i - 1, j - 1);
    }
  }

  lemma {:induction false} RoomIdListed(rooms: seq<RoomRequest>, i: nat)
    requires i < |rooms| && rooms[i].roomId.Some?
    ensures rooms[i].roomId.value in RoomIds(rooms)
  {
    if i > 0 {
      RoomIdListed(rooms[1..], i - 1);
    }
  }

  /** Room `i` is still free after the first `n` of its siblings are inserted. */
  lemma {:induction false} SiblingsLeaveRoomFree(bookings: Bookings, first: BookingId, o: Order, n: nat,
      i: nat, status: Status)
    requires n <= i < |o.rooms| && NoRepeats(RoomIds(o.rooms)) && o.rooms[i].roomId.Some?
    requires RoomIsFree(bookings, o.rooms[i].roomId.value, o.startsOn, o.endsOn)
    ensures RoomIsFree(WithChildren(bookings, first, o, n, status), o.rooms[i].roomId.value, o.startsOn, o.endsOn)
  {
    if n > 0 {
      SiblingsLeaveRoomFree(bookings, first, o, n - 1, i, status);
      if o.rooms[n - 1].roomId.Some? {
        RoomIdsOf(o.rooms, n - 1, i);
      }
      assert !BlocksRoom(ChildOf(o, n - 1, status), o.rooms[i].roomId.value, o.startsOn, o.endsOn);
    }
  }

  lemma {:induction false} ChildrenKeepRooms(bookings: Bookings, first: BookingId, o: Order, n: nat, status: Status)
    requires Before(bookings, first) && n <= |o.rooms| && NoRepeats(RoomIds(o.rooms)) && RoomsNotShared(bookings)
    requires forall roomId :: roomId in RoomIds(o.rooms) ==> RoomIsFree(bookings, roomId, o.startsOn, o.endsOn)
    ensures RoomsNotShared(WithChildren(bookings, first, o, n, status))
  {
    hide RoomsNotShared, RoomIsFree, Before, NoRepeats;
    if n > 0 {
      ChildrenKeepRooms(bookings, first, o, n - 1, status);
      if o.rooms[n - 1].roomId.Some? {
        RoomIdListed(o.rooms, n - 1);
        SiblingsLeaveRoomFree(bookings, first, o, n - 1, n - 1, status);
      }
      NextIsNew(bookings, first, o, n - 1, status);
      AfterIsNew(WithChildren(bookings, first, o, n - 1, status), first + n - 1);
      InsertKeepsRooms(WithChildren(bookings, first, o, n - 1, status), first + n - 1, ChildOf(o, n - 1, status));
    }
  }

  lemma {:induction false} ChildrenInOrder(bookings: Bookings, first: BookingId, o: Order, n: nat, status: Status)
    requires RowsInOrder(bookings, first) && n <= |o.rooms| && o.startsOn < o.endsOn && AtRest(status)
    ensures RowsInOrder(WithChildren(bookings, first, o, n, status), first + n)
  {
    if n > 0 {
      ChildrenInOrder(bookings, first, o, n - 1, status);
    }
  }

  lemma {:induction false} OrderKeepsSound(s: State, o: Order)
    requires Sound(s)
    ensures Sound(Ordered(s, o).0)
  {
    hide Balanced, WithinCapacity, RoomsNotShared, RowsInOrder, WithChildren, Claimed;
    if Ordered(s, o).1.Placed? {
      var n, status := |o.rooms|, OrderStatus(o);
      var stock := Claimed(s.stock, OrderClaims(o));
      RowsAreBefore(s.bookings, s.nextId);
      ClaimsKeepBalance(s, o);
      ChildrenKeepBalance(s.bookings, s.nextId, stock, o, n, status);
      ChildrenKeepRooms(s.bookings, s.nextId, o, n, status);
      ChildrenInOrder(s.bookings, s.nextId, o, n, status);
      assert o.rooms[n..] == [];
      SameClaims(WithChildren(s.bookings, s.nextId, o, n, status), stock, ClaimsFrom(o, n), NO_CLAIMS);
    }
  }

  lemma {:induction false} RowsAreBefore(bookings: Bookings, nextId: BookingId)
    requires RowsInOrder(bookings, nextId)
    ensures Before(bookings, nextId)
  {
  }

  /** Each night's count rises by the order's rooms of that type. */
  lemma {:induction false} OrderCounts(s: State, o: Order, typeId: TypeId, night: Day)
    requires AllClaimable(s, o)
    ensures BookedAt(Claimed(s.stock, OrderClaims(o)), typeId, night) ==
      BookedAt(s.stock, typeId, night) + if OccupiesNight(o.startsOn, o.endsOn, night) then Wanted(o.rooms, typeId) else 0
  {
    OrderUnits(o, typeId);
    WantedIff(o.rooms, typeId);
  }

  lemma {:induction false} ChildInserted(bookings: Bookings, first: BookingId, o: Order, i: nat, status: Status)
    requires i < |o.rooms|
    ensures var now := WithChildren(bookings, first, o, |o.rooms|, status);
      first + i in now && now[first + i] == ChildOf(o, i, status)
  {
    ChildrenKeys(bookings, first, o, |o.rooms|, status);
  }

  /** Multi-room creation takes every unit it needs or none: either nothing is written at all, or every room of
      the order is booked and each type's count rises by exactly the rooms of that type on every night. */
  lemma {:induction false} OrderHoldsAllOrNone(s: State, o: Order)
    ensures var (t, reply) := Ordered(s, o);
      if !reply.Placed? then t == s
      else
        && reply.first == s.nextId
        && (forall id :: s.nextId <= id < s.nextId + |o.rooms| ==>
              id in t.bookings && t.bookings[id] == ChildOf(o, id - s.nextId, OrderStatus(o)))
        && (forall typeId, night :: BookedAt(t.stock, typeId, night) == BookedAt(s.stock, typeId, night) +
              if OccupiesNight(o.startsOn, o.endsOn, night) then Wanted(o.rooms, typeId) else 0)
  {
    hide WithChildren, Claimed, AllClaimable, BookedAt, Wanted;
    var (t, reply) := Ordered(s, o);
    if reply.Placed? {
      forall typeId, night
        ensures BookedAt(t.stock, typeId, night) == BookedAt(s.stock, typeId, night) +
          if OccupiesNight(o.startsOn, o.endsOn, night) then Wanted(o.rooms, typeId) else 0
      {
        OrderCounts(s, o, typeId, night);
      }
      forall id | s.nextId <= id < s.nextId + |o.rooms|
        ensures id in t.bookings && t.bookings[id] == ChildOf(o, id - s.nextId, OrderStatus(o))
      {
        ChildInserted(s.bookings, s.nextId, o, id - s.nextId, OrderStatus(o));
      }
    }
  }

  // ---------------------------------------------------------------- closing, confirming, moving, restocking

  lemma {:induction false} SettleKeepsSound(s: State, id: BookingId, how: Settlement)
    requires Sound(s) && id in s.bookings
    requires how == Confirm ==> s.bookings[id].status == PaymentPending
    ensures Sound(Settled(s, id, how))
  {
    var was := s.bookings[id];
    var b := SettledRow(was, how);
    RewriteKeepsRooms(s.bookings, id, b);
    if how != Confirm && was.roomId.None? && Holding(was.status) {
      ReleaseKeepsBalance(s.bookings, s.stock, id, b);
    } else {
      RewriteKeepsBalance(s.bookings, s.stock, id, b);
    }
  }

  lemma {:induction false} SettleAllKeepsSound(s: State, ids: seq<BookingId>, how: Settlement)
    requires Sound(s) && NoRepeats(ids) && InDomain(s.bookings, ids)
    requires how == Confirm ==> forall i :: 0 <= i < |ids| ==> s.bookings[ids[i]].status == PaymentPending
    ensures Sound(SettledAll(s, ids, how))
  {
    if ids != [] {
      var n := |ids| - 1;
      SettleAllKeepsSound(s, ids[..n], how);
      SettledAllRows(s, ids[..n], how);
      assert ids[n] !in ids[..n];
      SettleKeepsSound(SettledAll(s, ids[..n], how), ids[n], how);
    }
  }

  lemma {:induction false} WaitingKeepsSound(s: State, reference: string, how: Settlement)
    requires Sound(s)
    ensures Sound(SettledAll(s, WaitingChildren(s, reference), how))
  {
    ChildrenNoRepeats(s.bookings, reference, s.nextId);
    FilterNoRepeats(Children(s, reference), IsWaiting(s.bookings));
    SettleAllKeepsSound(s, WaitingChildren(s, reference), how);
  }

  lemma {:induction false} PayAndExpireKeepSound(s: State, id: BookingId, overdue: bool)
    requires Sound(s)
    ensures Sound(Paid(s, id).0)
    ensures Sound(PaymentExpired(s, id, overdue).0)
  {
    if id in s.bookings && s.bookings[id].status == PaymentPending {
      var b := s.bookings[id];
      if b.order.Some? {
        WaitingKeepsSound(s, b.order.value, Confirm);
        WaitingKeepsSound(s, b.order.value, Expire);
      } else {
        SettleKeepsSound(s, id, Confirm);
        SettleKeepsSound(s, id, Expire);
      }
    }
  }

  lemma {:induction false} MoveKeepsSound(s: State, m: Move)
    requires Sound(s)
    ensures Sound(MovedTo(s, m).0)
  {
    if MovedTo(s, m).1.Moved? {
      var was := s.bookings[m.booking];
      var b := was.(roomId := Some(m.roomId), version := was.version + 1);
      RewriteKeepsRooms(s.bookings, m.booking, b);
      if was.roomId.None? {
        ReleaseKeepsBalance(s.bookings, s.stock, m.booking, b);
      } else {
        RewriteKeepsBalance(s.bookings, s.stock, m.booking, b);
      }
    }
  }

  /** Stock can be edited down to the units already sold, and no further. */
  lemma {:induction false} StockEditKeepsSound(s: State, e: StockEdit)
    requires Sound(s)
    ensures Sound(StockEdited(s, e).0)
  {
    if Editable(s.stock, e) {
      var after := Edited(s.stock, e);
      forall t, night
        ensures BookedAt(after, t, night) == |Holders(s.bookings, t, night)| + ClaimedAt(NO_CLAIMS, t, night)
      {
        assert BookedAt(s.stock, t, night) == |Holders(s.bookings, t, night)|;
      }
      forall k | k in after
        ensures 0 <= after[k].booked <= after[k].available
      {
        assert BookedAt(s.stock, k.0, k.1) == |Holders(s.bookings, k.0, k.1)|;
        if k in e.cells {
          var i :| 0 <= i < |e.cells| && e.cells[i] == k;
          assert CellEditable(s.stock, e, e.cells[i]);
        }
      }
    }
  }

  /** Soundness is about the rows alone. */
  ghost predicate SameRows(s: State, t: State) {
    t.bookings == s.bookings && t.stock == s.stock && t.nextId == s.nextId
  }

  lemma {:induction false} SameRowsSound(s: State, t: State)
    requires Sound(s) && SameRows(s, t)
    ensures Sound(t)
  {
  }

  lemma {:induction false} OneCancelRows(s: State, c: Cancellation, f: Facts)
    requires c.booking in s.bookings
    ensures var (t, reply) := CancelledOne(s, s.bookings[c.booking], c, f);
      SameRows(if reply.Done? then Settled(s, c.booking, Cancel) else s, t)
  {
  }

  lemma {:induction false} OneCancelKeepsSound(s: State, c: Cancellation, f: Facts)
    requires Sound(s) && c.booking in s.bookings
    ensures Sound(CancelledOne(s, s.bookings[c.booking], c, f).0)
  {
    var (t, reply) := CancelledOne(s, s.bookings[c.booking], c, f);
    var u := if reply.Done? then Settled(s, c.booking, Cancel) else s;
    SettleKeepsSound(s, c.booking, Cancel);
    OneCancelRows(s, c, f);
    SameRowsSound(u, t);
  }

  lemma {:induction false} OrderCancelKeepsSound(s: State, anchor: BookingId, reference: string,
      c: Cancellation, f: Facts)
    requires Sound(s)
    ensures Sound(OrderCancelled(s, anchor, reference, c, f).0)
  {
    var (t, reply) := OrderCancelled(s, anchor, reference, c, f);
    if !reply.NotCancelled? {
      var ids := Children(s, reference);
      var accepted := AcceptedOf(s.bookings, ids, f);
      ChildrenNoRepeats(s.bookings, reference, s.nextId);
      FilterNoRepeats(ids, IsAccepted(s.bookings, f));
      SettleAllKeepsSound(s, accepted, Cancel);
      SettledAllRows(s, accepted, Cancel);
      SameRowsSound(SettledAll(s, accepted, Cancel), t);
    }
  }

  lemma {:induction false} CancelKeepsSound(s: State, c: Cancellation, f: Facts)
    requires Sound(s)
    ensures Sound(BookingCancelled(s, c, f).0)
  {
    if c.booking in s.bookings {
      OneCancelKeepsSound(s, c, f);
      var b := s.bookings[c.booking];
      if b.order.Some? {
        OrderCancelKeepsSound(s, c.booking, b.order.value, c, f);
      }
    }
  }

  // ---------------------------------------------------------------- every history

  datatype Event =
    | CreateOne(creation: Creation)
    | CreateOrder(order: Order)
    | PaymentArrives(booking: BookingId)
    | PaymentTimesOut(booking: BookingId, overdue: bool)
    | CancelBooking(cancellation: Cancellation, facts: Facts)
    | MoveRoom(move: Move)
    | EditStock(edit: StockEdit)

  function Apply(s: State, e: Event): State {
    match e
    case CreateOne(c) => Created(s, c).0
    case CreateOrder(o) => Ordered(s, o).0
    case PaymentArrives(id) => Paid(s, id).0
    case PaymentTimesOut(id, overdue) => PaymentExpired(s, id, overdue).0
    case CancelBooking(c, f) => BookingCancelled(s, c, f).0
    case MoveRoom(m) => MovedTo(s, m).0
    case EditStock(edit) => StockEdited(s, edit).0
  }

  function History(s: State, events: seq<Event>): State
    decreases events
  {
    if events == [] then s else History(Apply(s, events[0]), events[1..])
  }

  const NEW_HOTEL := State(map[], map[], 0, [], [], [])

  lemma {:induction false} EventKeepsSound(s: State, e: Event)
    requires Sound(s)
    ensures Sound(Apply(s, e))
  {
    match e
    case CreateOne(c) => CreateKeepsSound(s, c);
    case CreateOrder(o) => OrderKeepsSound(s, o);
    case PaymentArrives(id) => PayAndExpireKeepSound(s, id, true);
    case PaymentTimesOut(id, overdue) => PayAndExpireKeepSound(s, id, overdue);
    case CancelBooking(c, f) => CancelKeepsSound(s, c, f);
    case MoveRoom(m) => MoveKeepsSound(s, m);
    case EditStock(edit) => StockEditKeepsSound(s, edit);
  }

  lemma {:induction false} HistoryKeepsSound(s: State, events: seq<Event>)
    requires Sound(s)
    ensures Sound(History(s, events))
    decreases events
  {
    if events != [] {
      EventKeepsSound(s, events[0]);
      HistoryKeepsSound(Apply(s, events[0]), events[1..]);
    }
  }

  predicate Live(b: Booking, night: Day) {
    (b.status == PaymentPending || b.status == Confirmed) && OccupiesNight(b.startsOn, b.endsOn, night)
  }

  /** The bookings of a room type, without a room of their own, that are live on a night. */
  function Roomless(bookings: Bookings, typeId: TypeId, night: Day): set<BookingId> {
    set id | id in bookings && bookings[id].typeId == typeId && bookings[id].roomId.None? && Live(bookings[id], night)
  }

  lemma {:induction false} RoomlessAreCounted(s: State, typeId: TypeId, night: Day)
    requires Sound(s)
    ensures BookedAt(s.stock, typeId, night) == |Roomless(s.bookings, typeId, night)|
  {
    assert Holders(s.bookings, typeId, night) == Roomless(s.bookings, typeId, night);
    assert BookedAt(s.stock, typeId, night) == |Holders(s.bookings, typeId, night)| + ClaimedAt(NO_CLAIMS, typeId, night);
  }

  lemma {:induction false} OneStayPerRoom(s: State, i: BookingId, j: BookingId, night: Day)
    requires Sound(s) && i in s.bookings && j in s.bookings
    requires s.bookings[i].roomId.Some? && s.bookings[i].roomId == s.bookings[j].roomId
    requires Live(s.bookings[i], night) && Live(s.bookings[j], night)
    ensures i == j
  {
  }

  /** Conservation.  After any history of a new hotel: for every room type and night the booked units are exactly
      the room-less bookings waiting for payment or confirmed that cover the night, never more than the stock;
      no two live bookings share a room on a night; and no booking rests in an intermediate status. */
  lemma {:induction false} InventoryIsConserved(events: seq<Event>)
    ensures var s := History(NEW_HOTEL, events);
      && (forall typeId, night :: BookedAt(s.stock, typeId, night) == |Roomless(s.bookings, typeId, night)|)
      && (forall k :: k in s.stock ==> 0 <= s.stock[k].booked <= s.stock[k].available)
      && (forall i, j, night :: i in s.bookings && j in s.bookings && s.bookings[i].roomId.Some?
            && s.bookings[i].roomId == s.bookings[j].roomId && Live(s.bookings[i], night) && Live(s.bookings[j], night)
            ==> i == j)
      && (forall id :: id in s.bookings ==> AtRest(s.bookings[id].status))
  {
    var s := History(NEW_HOTEL, events);
    NewHotelIsSound();
    HistoryKeepsSound(NEW_HOTEL, events);
    forall typeId, night
      ensures BookedAt(s.stock, typeId, night) == |Roomless(s.bookings, typeId, night)|
    {
      RoomlessAreCounted(s, typeId, night);
    }
    forall i, j, night | i in s.bookings && j in s.bookings && s.bookings[i].roomId.Some?
        && s.bookings[i].roomId == s.bookings[j].roomId && Live(s.bookings[i], night) && Live(s.bookings[j], night)
      ensures i == j
    {
      OneStayPerRoom(s, i, j, night);
    }
  }

  lemma {:induction false} NewHotelIsSound()
    ensures Sound(NEW_HOTEL)
  {
    assert forall t: TypeId, night: Day :: Holders(NEW_HOTEL.bookings, t, night) == {};
  }
}
