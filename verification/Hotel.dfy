/** The booking transactions of a hotel that keeps its own stock, step by step on its rows. */
module Hotel {
  import opened BookingStatus
  import opened Calendar
  import opened CancellationModel
  import opened Collections
  import opened HotelModel
  import opened Inventory
  import opened InventoryLocks
  import HotelInvariant
  import Text

  /** A row that is still being created keeps nobody out of a room. */
  lemma {:induction false} NewRowBlocksNobody(bookings: Bookings, id: BookingId, b: Booking, roomId: RoomId,
      startsOn: Day, endsOn: Day)
    requires id !in bookings && !Blocking(b.status)
    ensures RoomIsFree(bookings[id := b], roomId, startsOn, endsOn) == RoomIsFree(bookings, roomId, startsOn, endsOn)
  {
    if RoomIsFree(bookings[id := b], roomId, startsOn, endsOn) {
      forall x | x in bookings
        ensures !BlocksRoom(bookings[x], roomId, startsOn, endsOn)
      {
        assert bookings[id := b][x] == bookings[x];
      }
    }
  }

  lemma {:induction false} NewRowLeavesFirstFree(bookings: Bookings, id: BookingId, b: Booking, c: Creation,
      candidates: seq<RoomId>)
    requires id !in bookings && !Blocking(b.status)
    ensures FirstFree(bookings[id := b], c, candidates) == FirstFree(bookings, c, candidates)
  {
    if candidates != [] {
      NewRowBlocksNobody(bookings, id, b, candidates[0], c.startsOn, c.endsOn);
      NewRowLeavesFirstFree(bookings, id, b, c, candidates[1..]);
    }
  }

  // ---------------------------------------------------------------- facts about orders

  function WantsOne(room: RoomRequest, typeId: TypeId): nat {
    if room.roomId.None? && room.roomTypeId == typeId then 1 else 0
  }

  lemma {:induction false} WantedSnoc(rooms: seq<RoomRequest>, room: RoomRequest, typeId: TypeId)
    ensures Wanted(rooms + [room], typeId) == Wanted(rooms, typeId) + WantsOne(room, typeId)
  {
    if rooms == [] {
      assert rooms + [room] == [room];
    } else {
      assert (rooms + [room])[1..] == rooms[1..] + [room];
      WantedSnoc(rooms[1..], room, typeId);
    }
  }

  lemma {:induction false} InsertIdNoRepeats(id: string, ids: seq<string>)
    requires NoRepeats(ids) && id !in ids
    ensures NoRepeats(InsertId(id, ids))
  {
    if ids != [] && Text.Less(ids[0], id) {
      InsertIdNoRepeats(id, ids[1..]);
      var rest := InsertId(id, ids[1..]);
      assert forall i :: 0 <= i < |rest| ==> rest[i] in rest;
    }
  }

  lemma {:induction false} SortNoRepeats(ids: seq<string>)
    requires NoRepeats(ids)
    ensures NoRepeats(SortIds(ids))
  {
    if ids != [] {
      SortNoRepeats(ids[1..]);
      InsertIdNoRepeats(ids[0], SortIds(ids[1..]));
    }
  }

  lemma {:induction false} TypeIdsNoRepeats(rooms: seq<RoomRequest>)
    ensures NoRepeats(TypeIds(rooms))
  {
    if rooms != [] {
      TypeIdsNoRepeats(rooms[1..]);
      var rest := TypeIds(rooms[1..]);
      assert forall i :: 0 <= i < |rest| ==> rest[i] in rest;
    }
  }

  lemma {:induction false} NoPendingRows(s: State)
    requires HotelInvariant.Sound(s)
    ensures HotelInvariant.Before(s.bookings, s.nextId)
    ensures forall id :: id in s.bookings ==> s.bookings[id].status != PmsCreationPending
  {
  }

  /** Confirming every row of the order that waits for the PMS confirms exactly the new rows. */
  lemma {:induction false} ConfirmedChildren(bookings: Bookings, first: BookingId, o: Order)
    requires HotelInvariant.Before(bookings, first)
    requires forall id :: id in bookings ==> bookings[id].status != PmsCreationPending
    ensures var waiting := WithChildren(bookings, first, o, |o.rooms|, PmsCreationPending);
      (map id | id in waiting ::
         if waiting[id].order == Some(o.reference) && waiting[id].status == PmsCreationPending
         then waiting[id].(status := Confirmed) else waiting[id])
      == WithChildren(bookings, first, o, |o.rooms|, Confirmed)
  {
    HotelInvariant.ChildrenKeys(bookings, first, o, |o.rooms|, PmsCreationPending);
    HotelInvariant.ChildrenKeys(bookings, first, o, |o.rooms|, Confirmed);
    assert forall id :: id in bookings ==> id < first;
    hide WithChildren, HotelInvariant.Before;
  }

  /** The claims of the types reserved so far. */
  function ClaimsOf(o: Order, typeIds: seq<TypeId>): Claims {
    Claims(map t | t in typeIds :: Wanted(o.rooms, t), o.startsOn, o.endsOn)
  }

  lemma {:induction false} NothingClaimed(stock: Stock, o: Order)
    ensures Claimed(stock, ClaimsOf(o, [])) == stock
  {
  }

  lemma {:induction false} EverythingClaimed(o: Order)
    ensures ClaimsOf(o, SortIds(TypeIds(o.rooms))) == OrderClaims(o)
  {
    assert ClaimsOf(o, SortIds(TypeIds(o.rooms))).units == UnitsByType(o.rooms);
  }

  /** Reserving one more type on top of others takes exactly its own claim. */
  lemma {:induction false} ReserveNextType(stock: Stock, o: Order, done: seq<TypeId>, typeId: TypeId)
    requires typeId !in done
    ensures CanReserve(Claimed(stock, ClaimsOf(o, done)), typeId, o.startsOn, o.endsOn, Wanted(o.rooms, typeId))
        <==> CanReserve(stock, typeId, o.startsOn, o.endsOn, Wanted(o.rooms, typeId))
    ensures Adjusted(Claimed(stock, ClaimsOf(o, done)), typeId, o.startsOn, o.endsOn, Wanted(o.rooms, typeId))
         == Claimed(stock, ClaimsOf(o, done + [typeId]))
  {
    var now := Claimed(stock, ClaimsOf(o, done));
    assert forall night :: (typeId, night) in stock ==> now[(typeId, night)] == stock[(typeId, night)];
    var next := Claimed(stock, ClaimsOf(o, done + [typeId]));
    forall k | k in stock
      ensures Adjusted(now, typeId, o.startsOn, o.endsOn, Wanted(o.rooms, typeId))[k] == next[k]
    {
    }
  }

  // ---------------------------------------------------------------- facts about settling rows

  /** A local hotel with a sound ledger, or one whose stock Clock keeps: there is none here. */
  ghost predicate Ready(s: State, clock: bool) {
    HotelInvariant.Sound(s) || (clock && s.stock == map[])
  }

  lemma {:induction false} SettlingKeepsReady(s: State, id: BookingId, how: Settlement, clock: bool)
    requires Ready(s, clock) && id in s.bookings
    requires how == Confirm ==> s.bookings[id].status == PaymentPending
    ensures Ready(Settled(s, id, how), clock)
    ensures HotelInvariant.Sound(s) ==> HotelInvariant.Sound(Settled(s, id, how))
  {
    if HotelInvariant.Sound(s) {
      HotelInvariant.SettleKeepsSound(s, id, how);
    }
  }

  lemma {:induction false} ReleaseIsPossible(s: State, id: BookingId, clock: bool)
    requires Ready(s, clock) && id in s.bookings
    requires s.bookings[id].roomId.None? && Holding(s.bookings[id].status)
    ensures s.stock == map[] || CanRelease(s.stock, s.bookings[id].typeId, s.bookings[id].startsOn, s.bookings[id].endsOn, 1)
  {
    if HotelInvariant.Sound(s) {
      ReleaseNeverFails(s.bookings, s.stock, id);
    }
  }

  lemma {:induction false} SettledSnoc(s: State, ids: seq<BookingId>, id: BookingId, how: Settlement)
    requires InDomain(s.bookings, ids) && id in s.bookings
    ensures InDomain(s.bookings, ids + [id])
    ensures SettledAll(s, ids + [id], how) == Settled(SettledAll(s, ids, how), id, how)
  {
    assert (ids + [id])[..|ids|] == ids;
  }

  lemma {:induction false} PrefixWaits(bookings: Bookings, ids: seq<BookingId>, i: nat)
    requires i < |ids|
    ensures Filter(ids[..i + 1], IsWaiting(bookings))
         == Filter(ids[..i], IsWaiting(bookings)) + if IsWaiting(bookings)(ids[i]) then [ids[i]] else []
  {
    assert ids[..i + 1] == ids[..i] + [ids[i]];
    FilterAppend(ids[..i], ids[i], IsWaiting(bookings));
  }

  /** The state of an order's loop after `i` children. */
  ghost predicate SettledSoFar(was: State, now: State, ids: seq<BookingId>, i: nat, how: Settlement) {
    var done := Filter(if i <= |ids| then ids[..i] else ids, IsWaiting(was.bookings));
    InDomain(was.bookings, done) && now == SettledAll(was, done, how)
  }

  /** Rows not reached yet are as they were. */
  lemma {:induction false} NotYetSettled(was: State, now: State, ids: seq<BookingId>, i: nat, how: Settlement)
    requires NoRepeats(ids) && InDomain(was.bookings, ids) && i < |ids|
    requires SettledSoFar(was, now, ids, i, how)
    ensures ids[i] in now.bookings && now.bookings[ids[i]] == was.bookings[ids[i]]
  {
    FilterNoRepeats(ids[..i], IsWaiting(was.bookings));
    var done := Filter(ids[..i], IsWaiting(was.bookings));
    SettledAllRows(was, done, how);
    assert ids[i] !in ids[..i];
  }

  lemma {:induction false} SettledFurther(was: State, now: State, ids: seq<BookingId>, i: nat, how: Settlement)
    requires NoRepeats(ids) && InDomain(was.bookings, ids) && i < |ids|
    requires SettledSoFar(was, now, ids, i, how)
    ensures ids[i] in now.bookings
    ensures SettledSoFar(was, if was.bookings[ids[i]].status == PaymentPending then Settled(now, ids[i], how) else now, ids, i + 1, how)
  {
    PrefixWaits(was.bookings, ids, i);
    NotYetSettled(was, now, ids, i, how);
    var done := Filter(ids[..i], IsWaiting(was.bookings));
    if was.bookings[ids[i]].status == PaymentPending {
      SettledSnoc(was, done, ids[i], how);
    } else {
      assert done + [] == done;
    }
  }

  // ---------------------------------------------------------------- facts about cancelling an order

  lemma {:induction false} ScanSnoc(bookings: Bookings, ids: seq<BookingId>, i: nat, c: Cancellation, f: Facts)
    requires InDomain(bookings, ids) && i < |ids|
    ensures ScanChildren(bookings, ids[..i + 1], c, f)
         == ScanChild(ScanChildren(bookings, ids[..i], c, f), bookings[ids[i]], ids[i], c, f)
  {
    assert ids[..i + 1][..i] == ids[..i];
  }

  /** The first error found is the error of the whole scan. */
  lemma {:induction false} ScanStops(bookings: Bookings, ids: seq<BookingId>, i: nat, c: Cancellation, f: Facts)
    requires InDomain(bookings, ids) && i <= |ids|
    requires ScanChildren(bookings, ids[..i], c, f).error.Some?
    ensures ScanChildren(bookings, ids, c, f).error == ScanChildren(bookings, ids[..i], c, f).error
    decreases |ids| - i
  {
    if i < |ids| {
      ScanSnoc(bookings, ids, i, c, f);
      ScanStops(bookings, ids, i + 1, c, f);
    } else {
      assert ids[..i] == ids;
    }
  }

  /** One more child: offered to the provider when it needs it, and cancelled unless declined. */
  function CarriedChild(now: State, b: Booking, id: BookingId, f: Facts): State
    requires id in now.bookings
  {
    var called := if NeedsProvider(b, f) then now.(providerCalls := now.providerCalls + [id]) else now;
    if Declined(b, f) then called.(reviews := called.reviews + [id]) else Settled(called, id, Cancel)
  }

  lemma {:induction false} AcceptedSnoc(bookings: Bookings, ids: seq<BookingId>, i: nat, f: Facts)
    requires InDomain(bookings, ids) && i < |ids|
    ensures AcceptedOf(bookings, ids[..i + 1], f)
         == AcceptedOf(bookings, ids[..i], f) + if Declined(bookings[ids[i]], f) then [] else [ids[i]]
  {
    assert ids[..i + 1] == ids[..i] + [ids[i]];
    FilterAppend(ids[..i], ids[i], IsAccepted(bookings, f));
  }

  lemma {:induction false} DeclinedSnoc(bookings: Bookings, ids: seq<BookingId>, i: nat, f: Facts)
    requires InDomain(bookings, ids) && i < |ids|
    ensures Filter(ids[..i + 1], IsDeclined(bookings, f))
         == Filter(ids[..i], IsDeclined(bookings, f)) + if Declined(bookings[ids[i]], f) then [ids[i]] else []
    ensures Filter(ids[..i + 1], IsCalled(bookings, f))
         == Filter(ids[..i], IsCalled(bookings, f)) + if NeedsProvider(bookings[ids[i]], f) then [ids[i]] else []
    ensures FirstDecline(bookings, ids[..i + 1], f)
         == if FirstDecline(bookings, ids[..i], f).None? && Declined(bookings[ids[i]], f)
            then Some(f.declined[bookings[ids[i]].external.value]) else FirstDecline(bookings, ids[..i], f)
  {
    assert ids[..i + 1] == ids[..i] + [ids[i]];
    FilterAppend(ids[..i], ids[i], IsDeclined(bookings, f));
    FilterAppend(ids[..i], ids[i], IsCalled(bookings, f));
  }

  /** Children not reached yet are as they were. */
  lemma {:induction false} NotYetCarried(was: State, ids: seq<BookingId>, i: nat, f: Facts)
    requires NoRepeats(ids) && InDomain(was.bookings, ids) && i < |ids|
    ensures var now := CarriedOut(was, ids[..i], f);
      ids[i] in now.bookings && now.bookings[ids[i]] == was.bookings[ids[i]]
  {
    FilterNoRepeats(ids[..i], IsAccepted(was.bookings, f));
    SettledAllRows(was, AcceptedOf(was.bookings, ids[..i], f), Cancel);
    assert ids[i] !in ids[..i];
  }

  lemma {:induction false} AcceptedSettles(was: State, ids: seq<BookingId>, i: nat, f: Facts)
    requires InDomain(was.bookings, ids) && i < |ids|
    ensures var now := SettledAll(was, AcceptedOf(was.bookings, ids[..i], f), Cancel);
      SettledAll(was, AcceptedOf(was.bookings, ids[..i + 1], f), Cancel)
      == if Declined(was.bookings[ids[i]], f) then now else Settled(now, ids[i], Cancel)
  {
    var done := AcceptedOf(was.bookings, ids[..i], f);
    AcceptedSnoc(was.bookings, ids, i, f);
    SettledSnoc(was, done, ids[i], Cancel);
    assert done + [] == done;
  }

  /** Settling a row does not look at the logs. */
  lemma {:induction false} SettledIgnoresLogs(s: State, id: BookingId, how: Settlement, calls: seq<BookingId>,
      reviews: seq<BookingId>)
    requires id in s.bookings
    ensures Settled(s, id, how).(providerCalls := calls, reviews := reviews)
         == Settled(s.(providerCalls := calls, reviews := reviews), id, how)
  {
  }

  function CallsAfter(was: State, ids: seq<BookingId>, f: Facts): seq<BookingId> {
    was.providerCalls + Filter(ids, IsCalled(was.bookings, f))
  }

  function ReviewsAfter(was: State, ids: seq<BookingId>, f: Facts): seq<BookingId> {
    was.reviews + Filter(ids, IsDeclined(was.bookings, f))
  }

  lemma {:induction false} LogsSnoc(was: State, ids: seq<BookingId>, i: nat, f: Facts)
    requires InDomain(was.bookings, ids) && i < |ids|
    ensures CallsAfter(was, ids[..i + 1], f)
         == CallsAfter(was, ids[..i], f) + if NeedsProvider(was.bookings[ids[i]], f) then [ids[i]] else []
    ensures ReviewsAfter(was, ids[..i + 1], f)
         == ReviewsAfter(was, ids[..i], f) + if Declined(was.bookings[ids[i]], f) then [ids[i]] else []
  {
    DeclinedSnoc(was.bookings, ids, i, f);
  }

  lemma {:induction false} CarriedSnoc(was: State, ids: seq<BookingId>, i: nat, f: Facts)
    requires InDomain(was.bookings, ids) && i < |ids|
    requires ids[i] in CarriedOut(was, ids[..i], f).bookings
    ensures CarriedOut(was, ids[..i + 1], f) == CarriedChild(CarriedOut(was, ids[..i], f), was.bookings[ids[i]], ids[i], f)
  {
    var base := SettledAll(was, AcceptedOf(was.bookings, ids[..i], f), Cancel);
    AcceptedSettles(was, ids, i, f);
    LogsSnoc(was, ids, i, f);
    CarriedChildParts(base, was.bookings[ids[i]], ids[i], f, CallsAfter(was, ids[..i], f), ReviewsAfter(was, ids[..i], f),
      CallsAfter(was, ids[..i + 1], f), ReviewsAfter(was, ids[..i + 1], f));
  }

  lemma {:induction false} CarriedChildParts(base: State, b: Booking, id: BookingId, f: Facts,
      calls: seq<BookingId>, declined: seq<BookingId>, callsNow: seq<BookingId>, declinedNow: seq<BookingId>)
    requires id in base.bookings
    requires callsNow == calls + if NeedsProvider(b, f) then [id] else []
    requires declinedNow == declined + if Declined(b, f) then [id] else []
    ensures CarriedChild(base.(providerCalls := calls, reviews := declined), b, id, f)
         == (if Declined(b, f) then base else Settled(base, id, Cancel)).(providerCalls := callsNow, reviews := declinedNow)
  {
    assert calls + [] == calls && declined + [] == declined;
    SettledIgnoresLogs(base, id, Cancel, callsNow, declined);
  }

  /** What the cancellation loop has done after `i` children. */
  ghost predicate CarriedSoFar(was: State, now: State, ids: seq<BookingId>, i: nat, f: Facts,
                               failure: Option<bool>, cancelled: seq<BookingId>) {
    i <= |ids| && InDomain(was.bookings, ids) && NoRepeats(ids)
    && now == CarriedOut(was, ids[..i], f)
    && failure == FirstDecline(was.bookings, ids[..i], f)
    && cancelled == AcceptedOf(was.bookings, ids[..i], f)
  }

  lemma {:induction false} NothingCarried(was: State, ids: seq<BookingId>, f: Facts)
    requires InDomain(was.bookings, ids) && NoRepeats(ids)
    ensures CarriedSoFar(was, was, ids, 0, f, None, [])
  {
    assert ids[..0] == [];
  }

  lemma {:induction false} CarriedFurther(was: State, now: State, ids: seq<BookingId>, i: nat, f: Facts,
                                          failure: Option<bool>, cancelled: seq<BookingId>)
    requires CarriedSoFar(was, now, ids, i, f, failure, cancelled) && i < |ids|
    ensures ids[i] in now.bookings && now.bookings[ids[i]] == was.bookings[ids[i]]
    ensures var b := was.bookings[ids[i]];
      CarriedSoFar(was, CarriedChild(now, b, ids[i], f), ids, i + 1, f,
        if failure.None? && Declined(b, f) then Some(f.declined[b.external.value]) else failure,
        cancelled + if Declined(b, f) then [] else [ids[i]])
  {
    NotYetCarried(was, ids, i, f);
    CarriedSnoc(was, ids, i, f);
    AcceptedSnoc(was.bookings, ids, i, f);
    DeclinedSnoc(was.bookings, ids, i, f);
  }

  lemma {:induction false} PassedMayCancel(bookings: Bookings, ids: seq<BookingId>, c: Cancellation, f: Facts)
    requires InDomain(bookings, ids) && ScanChildren(bookings, ids, c, f).error.None?
    ensures forall i :: 0 <= i < |ids| ==> CanTransition(bookings[ids[i]].status, Cancelled)
  {
    ScanAccepts(bookings, ids, c, f);
    forall i | 0 <= i < |ids|
      ensures CanTransition(bookings[ids[i]].status, Cancelled)
    {
      assert ChildError(bookings[ids[i]], ids[i], c, f).None?;
    }
  }

  lemma {:induction false} SettlingStockless(s: State, ids: seq<BookingId>, how: Settlement)
    requires InDomain(s.bookings, ids) && s.stock == map[]
    ensures SettledAll(s, ids, how).stock == map[]
  {
    if ids != [] {
      SettlingStockless(s, ids[..|ids| - 1], how);
    }
  }

  lemma {:induction false} CancellingKeepsReady(s: State, c: Cancellation, f: Facts)
    requires Ready(s, f.clock)
    ensures Ready(BookingCancelled(s, c, f).0, f.clock)
    ensures HotelInvariant.Sound(s) ==> HotelInvariant.Sound(BookingCancelled(s, c, f).0)
  {
    if HotelInvariant.Sound(s) {
      HotelInvariant.CancelKeepsSound(s, c, f);
    } else {
      CancellingStockless(s, c, f);
    }
  }

  lemma {:induction false} CancellingStockless(s: State, c: Cancellation, f: Facts)
    requires s.stock == map[]
    ensures BookingCancelled(s, c, f).0.stock == map[]
  {
    if c.booking in s.bookings && s.bookings[c.booking].order.Some? {
      SettlingStockless(s, AcceptedOf(s.bookings, Children(s, s.bookings[c.booking].order.value), f), Cancel);
    }
  }

  // ---------------------------------------------------------------- facts about stock edits

  lemma {:induction false} OneMoreCell(before: Stock, e: StockEdit, i: nat)
    requires i < |e.cells|
    ensures var sofar := Edited(before, e.(cells := e.cells[..i]));
      var cell := e.cells[i];
      sofar[cell := Units(StockAfter(e, AvailableAt(before, cell)), BookedAt(sofar, cell.0, cell.1))]
      == Edited(before, e.(cells := e.cells[..i + 1]))
  {
    assert e.cells[..i + 1] == e.cells[..i] + [e.cells[i]];
    EditedCells(before, e, e.cells[..i], e.cells[i]);
  }

  lemma {:induction false} EditedCells(before: Stock, e: StockEdit, cells: seq<(TypeId, Day)>, cell: (TypeId, Day))
    ensures var sofar := Edited(before, e.(cells := cells));
      sofar[cell := Units(StockAfter(e, AvailableAt(before, cell)), BookedAt(sofar, cell.0, cell.1))]
      == Edited(before, e.(cells := cells + [cell]))
  {
    var sofar := Edited(before, e.(cells := cells));
    assert BookedAt(sofar, cell.0, cell.1) == BookedAt(before, cell.0, cell.1);
    assert forall k :: k in cells + [cell] <==> k in cells || k == cell;
  }

  class Hotel {
    var bookings: Bookings
    var stock: Stock
    var nextId: BookingId
    var providerCalls: seq<BookingId>
    var reviews: seq<BookingId>
    var refunds: seq<RefundCall>

    ghost function Data(): State
      reads this
    {
      State(bookings, stock, nextId, providerCalls, reviews, refunds)
    }

    /** What every transaction finds and leaves. */
    ghost predicate Valid()
      reads this
    {
      HotelInvariant.Sound(Data())
    }

    constructor ()
      ensures Data() == HotelInvariant.NEW_HOTEL && Valid()
    {
      bookings, stock, nextId := map[], map[], 0;
      providerCalls, reviews, refunds := [], [], [];
      HotelInvariant.NewHotelIsSound();
    }

    // -------------------------------------------------------------- inventory

    method ReserveBookedUnits(typeId: TypeId, startsOn: Day, endsOn: Day, units: nat, openTypes: set<TypeId>)
      returns (reserved: bool)
      modifies this`stock
      ensures reserved == (typeId in openTypes && CanReserve(old(stock), typeId, startsOn, endsOn, units))
      ensures stock == if reserved then Adjusted(old(stock), typeId, startsOn, endsOn, units) else old(stock)
    {
      if typeId !in openTypes || !CanReserve(stock, typeId, startsOn, endsOn, units) {
        return false;
      }
      stock := Adjusted(stock, typeId, startsOn, endsOn, units);
      return true;
    }

    /** The release is refused when a night has nothing booked; callers show that this cannot happen.  Without any
        stock rows (Clock keeps the stock) there is nothing to release. */
    method ReleaseBookedUnit(b: Booking)
      requires stock == map[] || CanRelease(stock, b.typeId, b.startsOn, b.endsOn, 1)
      modifies this`stock
      ensures stock == Adjusted(old(stock), b.typeId, b.startsOn, b.endsOn, -1)
    {
      stock := Adjusted(stock, b.typeId, b.startsOn, b.endsOn, -1);
    }

    method ReserveRoom(roomId: RoomId, startsOn: Day, endsOn: Day, openRooms: set<RoomId>) returns (reserved: bool)
      ensures reserved == RoomClaimable(bookings, openRooms, roomId, startsOn, endsOn)
    {
      return roomId in openRooms && RoomIsFree(bookings, roomId, startsOn, endsOn);
    }

    method ReserveSamePricedRoom(c: Creation) returns (room: Option<RoomId>)
      ensures room == FirstFree(bookings, c, c.candidates)
    {
      for i := 0 to |c.candidates|
        invariant FirstFree(bookings, c, c.candidates) == FirstFree(bookings, c, c.candidates[i..])
      {
        var reserved := ReserveRoom(c.candidates[i], c.startsOn, c.endsOn, c.openRooms);
        if reserved {
          return Some(c.candidates[i]);
        }
      }
      return None;
    }

    // -------------------------------------------------------------- rows

    method Transition(id: BookingId, to: Status)
      requires id in bookings && CanTransition(bookings[id].status, to)
      modifies this`bookings
      ensures bookings == old(bookings)[id := old(bookings)[id].(status := to)]
    {
      bookings := bookings[id := bookings[id].(status := to)];
    }

    method StartCreation(c: Creation) returns (id: BookingId)
      requires nextId !in bookings
      modifies this`bookings, this`nextId
      ensures id == old(nextId) && nextId == id + 1
      ensures bookings == old(bookings)[id := RowOf(c, c.roomId, InventoryRevalidating)]
    {
      id := nextId;
      bookings, nextId := bookings[id := RowOf(c, c.roomId, Draft)], id + 1;
      Transition(id, Quoted);
      Transition(id, InventoryRevalidating);
    }

    /** The claim of a creation, made while its row is already written; `was` is the state before the row. */
    method Claim(c: Creation, id: BookingId, ghost was: State) returns (claimed: bool)
      requires id !in was.bookings && stock == was.stock
      requires bookings == was.bookings[id := RowOf(c, c.roomId, InventoryRevalidating)]
      modifies this`bookings, this`stock
      ensures claimed == Claimable(was, c)
      ensures claimed ==> bookings == was.bookings[id := RowOf(c, ClaimedRoom(was, c), InventoryRevalidating)]
      ensures claimed ==> stock == StockAfterClaim(was, c)
      ensures !claimed ==> bookings == old(bookings) && stock == old(stock)
    {
      if AutoAssigns(c) {
        NewRowLeavesFirstFree(was.bookings, id, RowOf(c, c.roomId, InventoryRevalidating), c, c.candidates);
        var room := ReserveSamePricedRoom(c);
        if room.None? {
          return false;
        }
        bookings := bookings[id := bookings[id].(roomId := room)];
        return true;
      }
      if c.roomId.Some? {
        NewRowBlocksNobody(was.bookings, id, RowOf(c, c.roomId, InventoryRevalidating), c.roomId.value, c.startsOn, c.endsOn);
        claimed := ReserveRoom(c.roomId.value, c.startsOn, c.endsOn, c.openRooms);
      } else {
        claimed := ReserveBookedUnits(c.typeId, c.startsOn, c.endsOn, 1, c.openTypes);
      }
    }

    method ConfirmUnpaid(id: BookingId)
      requires id in bookings && bookings[id].status == InventoryRevalidating
      modifies this`bookings
      ensures bookings == old(bookings)[id := old(bookings)[id].(status := Confirmed)]
    {
      Transition(id, PaymentNotRequired);
      Transition(id, PmsCreationPending);
      Transition(id, PmsConfirmationPending);
      Transition(id, Confirmed);
    }

    /** One booking, from its draft row to the status it rests in. */
    method CreateBooking(c: Creation) returns (reply: CreateReply)
      requires Valid()
      modifies this
      ensures Valid()
      ensures (Data(), reply) == Created(old(Data()), c)
    {
      HotelInvariant.CreateKeepsSound(Data(), c);
      reply := Create(c);
    }

    method Create(c: Creation) returns (reply: CreateReply)
      requires nextId !in bookings
      modifies this
      ensures (Data(), reply) == Created(old(Data()), c)
    {
      if !Accepts(c) {
        return Refused;
      }
      ghost var was := Data();
      var before, stockBefore := bookings, stock;
      var id := StartCreation(c);
      var claimed := false;
      if c.quoteValid {
        claimed := Claim(c, id, was);
      }
      if !claimed {
        Transition(id, AvailabilityFailed);
        assert bookings == was.bookings[id := RowOf(c, c.roomId, AvailabilityFailed)];
        return Unavailable(id);
      }
      if !PaidOnline(c.payment) {
        ConfirmUnpaid(id);
        assert bookings == was.bookings[id := RowOf(c, ClaimedRoom(was, c), Confirmed)];
        return Booked(id);
      }
      if !c.stillFree || !c.checkout {
        bookings, stock, nextId := before, stockBefore, id;
        return Thrown;
      }
      Transition(id, PaymentPending);
      assert bookings == was.bookings[id := RowOf(c, ClaimedRoom(was, c), PaymentPending)];
      return Booked(id);
    }

    // -------------------------------------------------------------- several rooms

    method CountUnits(rooms: seq<RoomRequest>) returns (units: map<TypeId, nat>)
      ensures units == UnitsByType(rooms)
    {
      units := map[];
      for i := 0 to |rooms|
        invariant forall t :: t in units <==> Wanted(rooms[..i], t) > 0
        invariant forall t :: t in units ==> units[t] == Wanted(rooms[..i], t)
      {
        assert rooms[..i + 1] == rooms[..i] + [rooms[i]];
        forall t
          ensures Wanted(rooms[..i + 1], t) == Wanted(rooms[..i], t) + WantsOne(rooms[i], t)
        {
          WantedSnoc(rooms[..i], rooms[i], t);
        }
        if rooms[i].roomId.None? {
          var t := rooms[i].roomTypeId;
          units := units[t := (if t in units then units[t] else 0) + 1];
        }
      }
      assert rooms[..|rooms|] == rooms;
      forall t
        ensures t in TypeIds(rooms) <==> Wanted(rooms, t) > 0
      {
        HotelInvariant.WantedIff(rooms, t);
      }
    }

    method RoomsAreFree(o: Order) returns (free: bool)
      ensures free <==> forall roomId :: roomId in RoomIds(o.rooms) ==>
        RoomClaimable(bookings, o.openRooms, roomId, o.startsOn, o.endsOn)
    {
      var roomIds := SortIds(RoomIds(o.rooms));
      for i := 0 to |roomIds|
        invariant forall k :: 0 <= k < i ==> RoomClaimable(bookings, o.openRooms, roomIds[k], o.startsOn, o.endsOn)
      {
        var reserved := ReserveRoom(roomIds[i], o.startsOn, o.endsOn, o.openRooms);
        if !reserved {
          assert roomIds[i] in RoomIds(o.rooms);
          return false;
        }
      }
      return true;
    }

    /** One more type on top of those in `done`, taken since `before`. */
    method ReserveType(o: Order, typeId: TypeId, units: nat, ghost before: Stock, ghost done: seq<TypeId>)
      returns (reserved: bool)
      requires stock == Claimed(before, ClaimsOf(o, done)) && typeId !in done && units == Wanted(o.rooms, typeId)
      modifies this`stock
      ensures reserved <==> TypeClaimable(before, o, typeId)
      ensures reserved ==> stock == Claimed(before, ClaimsOf(o, done + [typeId]))
    {
      ReserveNextType(before, o, done, typeId);
      reserved := ReserveBookedUnits(typeId, o.startsOn, o.endsOn, units, o.openTypes);
    }

    method ReserveTypes(o: Order) returns (reserved: bool)
      modifies this`stock
      ensures reserved <==> forall typeId :: typeId in TypeIds(o.rooms) ==> TypeClaimable(old(stock), o, typeId)
      ensures reserved ==> stock == Claimed(old(stock), OrderClaims(o))
    {
      ghost var before := stock;
      var units := CountUnits(o.rooms);
      var typeIds := SortIds(TypeIds(o.rooms));
      TypeIdsNoRepeats(o.rooms);
      SortNoRepeats(TypeIds(o.rooms));
      NothingClaimed(stock, o);
      assert typeIds[..0] == [];
      for i := 0 to |typeIds|
        invariant stock == Claimed(before, ClaimsOf(o, typeIds[..i]))
        invariant forall k :: 0 <= k < i ==> TypeClaimable(before, o, typeIds[k])
      {
        assert typeIds[..i + 1] == typeIds[..i] + [typeIds[i]];
        assert typeIds[i] in TypeIds(o.rooms);
        var free := ReserveType(o, typeIds[i], units[typeIds[i]], before, typeIds[..i]);
        if !free {
          return false;
        }
      }
      assert typeIds[..|typeIds|] == typeIds;
      EverythingClaimed(o);
      return true;
    }

    /** Every target of an order is reserved before any row is written.  When one fails the caller rolls back. */
    method ReserveAll(o: Order) returns (reserved: bool)
      modifies this`stock
      ensures reserved == AllClaimable(old(Data()), o)
      ensures reserved ==> stock == Claimed(old(stock), OrderClaims(o))
    {
      reserved := RoomsAreFree(o);
      if reserved {
        reserved := ReserveTypes(o);
      }
    }

    /** The rows of an order, all in `status`. */
    method InsertChildren(o: Order, status: Status)
      modifies this`bookings, this`nextId
      ensures nextId == old(nextId) + |o.rooms|
      ensures bookings == WithChildren(old(bookings), old(nextId), o, |o.rooms|, status)
    {
      ghost var before, first := bookings, nextId;
      for i := 0 to |o.rooms|
        invariant nextId == first + i
        invariant bookings == WithChildren(before, first, o, i, status)
      {
        bookings, nextId := bookings[nextId := ChildOf(o, i, status)], nextId + 1;
      }
    }

    /** UPDATE bookings SET status = CONFIRMED WHERE the order is this one AND status = PMS_CREATION_PENDING */
    method ConfirmOrder(reference: string)
      modifies this`bookings
      ensures bookings == map id | id in old(bookings) ::
        if old(bookings)[id].order == Some(reference) && old(bookings)[id].status == PmsCreationPending
        then old(bookings)[id].(status := Confirmed) else old(bookings)[id]
    {
      bookings := map id | id in bookings ::
        if bookings[id].order == Some(reference) && bookings[id].status == PmsCreationPending
        then bookings[id].(status := Confirmed) else bookings[id];
    }

    /** A multi-room order: all its holds and rows, or nothing. */
    method CreateOrder(o: Order) returns (reply: OrderReply)
      requires Valid()
      modifies this
      ensures Valid()
      ensures (Data(), reply) == Ordered(old(Data()), o)
    {
      HotelInvariant.OrderKeepsSound(Data(), o);
      NoPendingRows(Data());
      reply := PlaceOrder(o);
    }

    method PlaceOrder(o: Order) returns (reply: OrderReply)
      requires HotelInvariant.Before(bookings, nextId)
      requires forall id :: id in bookings ==> bookings[id].status != PmsCreationPending
      modifies this
      ensures (Data(), reply) == Ordered(old(Data()), o)
    {
      if !AcceptsOrder(o) {
        return OrderRefused;
      }
      var before, stockBefore, first := bookings, stock, nextId;
      var reserved := ReserveAll(o);
      if !reserved || ReferenceTaken(bookings, o.reference) || (PaidOnline(o.payment) && !o.stillFree) {
        bookings, stock, nextId := before, stockBefore, first;
        return OrderThrown;
      }
      if PaidOnline(o.payment) {
        InsertChildren(o, PaymentPending);
        return Placed(first, o.checkout);
      }
      if o.payment == PayAtHotel {
        InsertChildren(o, PmsCreationPending);
        ConfirmOrder(o.reference);
        ConfirmedChildren(before, first, o);
      } else {
        InsertChildren(o, Confirmed);
      }
      return Placed(first, true);
    }

    // -------------------------------------------------------------- payment and expiry

    method ConfirmPaid(id: BookingId)
      requires Valid() && id in bookings && bookings[id].status == PaymentPending
      modifies this
      ensures Valid() && Data() == Settled(old(Data()), id, Confirm)
    {
      SettlingKeepsReady(Data(), id, Confirm, false);
      ghost var confirmed := bookings[id := bookings[id].(status := Confirmed)];
      Transition(id, PmsCreationPending);
      Transition(id, PmsConfirmationPending);
      Transition(id, Confirmed);
      assert bookings == confirmed;
    }

    method ExpireHold(id: BookingId)
      requires Valid() && id in bookings && bookings[id].status == PaymentPending
      modifies this
      ensures Valid() && Data() == Settled(old(Data()), id, Expire)
    {
      SettlingKeepsReady(Data(), id, Expire, false);
      if bookings[id].roomId.None? {
        ReleaseIsPossible(Data(), id, false);
        ReleaseBookedUnit(bookings[id]);
      }
      Transition(id, Expired);
    }

    method ContinueAfterPayment(id: BookingId) returns (ok: bool)
      requires Valid()
      modifies this
      ensures Valid()
      ensures (Data(), ok) == Paid(old(Data()), id)
    {
      if id !in bookings {
        return false;
      }
      if bookings[id].order.Some? {
        if bookings[id].status != PaymentPending {
          return false;
        }
        ConfirmOrderPaid(bookings[id].order.value);
        return true;
      }
      if bookings[id].status != PaymentPending && bookings[id].status != PmsCreationPending {
        return false;
      }
      ConfirmPaid(id);
      return true;
    }

    method ConfirmOrderPaid(reference: string)
      requires Valid()
      modifies this
      ensures Valid()
      ensures Data() == SettledAll(old(Data()), WaitingChildren(old(Data()), reference), Confirm)
    {
      ghost var was := Data();
      var ids := ChildrenBelow(bookings, reference, nextId);
      ChildrenNoRepeats(bookings, reference, nextId);
      assert ids == Children(was, reference);
      assert SettledSoFar(was, Data(), ids, 0, Confirm);
      for i := 0 to |ids|
        invariant Valid()
        invariant SettledSoFar(was, Data(), ids, i, Confirm)
      {
        NotYetSettled(was, Data(), ids, i, Confirm);
        SettledFurther(was, Data(), ids, i, Confirm);
        if bookings[ids[i]].status == PaymentPending {
          ConfirmPaid(ids[i]);
        }
      }
      assert ids[..|ids|] == ids;
    }

    method ExpirePaymentPending(id: BookingId, overdue: bool) returns (expired: bool)
      requires Valid()
      modifies this
      ensures Valid()
      ensures (Data(), expired) == PaymentExpired(old(Data()), id, overdue)
    {
      if id !in bookings || bookings[id].status != PaymentPending || !overdue {
        return false;
      }
      if bookings[id].order.None? {
        ExpireHold(id);
        return true;
      }
      ExpireOrder(bookings[id].order.value);
      return true;
    }

    method ExpireOrder(reference: string)
      requires Valid()
      modifies this
      ensures Valid()
      ensures Data() == SettledAll(old(Data()), WaitingChildren(old(Data()), reference), Expire)
    {
      ghost var was := Data();
      var ids := ChildrenBelow(bookings, reference, nextId);
      ChildrenNoRepeats(bookings, reference, nextId);
      assert ids == Children(was, reference);
      assert SettledSoFar(was, Data(), ids, 0, Expire);
      for i := 0 to |ids|
        invariant Valid()
        invariant SettledSoFar(was, Data(), ids, i, Expire)
      {
        NotYetSettled(was, Data(), ids, i, Expire);
        SettledFurther(was, Data(), ids, i, Expire);
        if bookings[ids[i]].status == PaymentPending {
          ExpireHold(ids[i]);
        }
      }
      assert ids[..|ids|] == ids;
    }

    // -------------------------------------------------------------- cancellation

    method CloseCancelled(id: BookingId, ghost clock: bool)
      requires Ready(Data(), clock) && id in bookings && CanTransition(bookings[id].status, Cancelled)
      modifies this
      ensures Ready(Data(), clock) && Data() == Settled(old(Data()), id, Cancel)
    {
      hide Ready, HotelInvariant.Sound, Adjusted, CanRelease;
      SettlingKeepsReady(Data(), id, Cancel, clock);
      var b := bookings[id];
      if b.roomId.None? && Holding(b.status) {
        ReleaseIsPossible(Data(), id, clock);
        ReleaseBookedUnit(b);
      }
      bookings := bookings[id := b.(status := Cancelled, version := b.version + 1)];
    }

    /** Every child is checked before anything irreversible happens. */
    method ValidateOrder(ids: seq<BookingId>, c: Cancellation, f: Facts) returns (error: Option<CancelError>,
        currency: Option<string>)
      requires InDomain(bookings, ids)
      ensures error == ScanChildren(bookings, ids, c, f).error
      ensures error.None? ==> currency == ScanChildren(bookings, ids, c, f).currency
    {
      error, currency := None, None;
      for i := 0 to |ids|
        invariant ScanChildren(bookings, ids[..i], c, f) == Scan(None, currency)
      {
        ScanSnoc(bookings, ids, i, c, f);
        var b := bookings[ids[i]];
        error := ChildError(b, ids[i], c, f);
        if error.None? && ids[i] in f.free {
          if currency.Some? && currency.value != b.currency {
            error := Some(CurrencyMismatch);
          }
          currency := Some(b.currency);
        }
        if error.Some? {
          ScanStops(bookings, ids, i + 1, c, f);
          return;
        }
      }
      assert ids[..|ids|] == ids;
      return None, currency;
    }

    /** Offers one child to the provider that holds its reservation, and cancels it unless declined. */
    method CancelChild(id: BookingId, f: Facts)
      requires Ready(Data(), f.clock) && id in bookings && CanTransition(bookings[id].status, Cancelled)
      modifies this
      ensures Ready(Data(), f.clock) && Data() == CarriedChild(old(Data()), old(bookings[id]), id, f)
    {
      var b := bookings[id];
      if NeedsProvider(b, f) {
        providerCalls := providerCalls + [id];
        if Declined(b, f) {
          reviews := reviews + [id];
          return;
        }
      }
      CloseCancelled(id, f.clock);
    }

    method CancelChildren(ids: seq<BookingId>, f: Facts) returns (failure: Option<bool>, cancelled: seq<BookingId>)
      requires Ready(Data(), f.clock) && NoRepeats(ids) && InDomain(bookings, ids)
      requires forall i :: 0 <= i < |ids| ==> CanTransition(bookings[ids[i]].status, Cancelled)
      modifies this
      ensures Data() == CarriedOut(old(Data()), ids, f)
      ensures failure == FirstDecline(old(bookings), ids, f)
      ensures cancelled == AcceptedOf(old(bookings), ids, f)
    {
      ghost var was := Data();
      failure, cancelled := None, [];
      NothingCarried(was, ids, f);
      for i := 0 to |ids|
        invariant Ready(Data(), f.clock)
        invariant CarriedSoFar(was, Data(), ids, i, f, failure, cancelled)
      {
        CarriedFurther(was, Data(), ids, i, f, failure, cancelled);
        var b := bookings[ids[i]];
        CancelChild(ids[i], f);
        if Declined(b, f) {
          failure := if failure.None? then Some(f.declined[b.external.value]) else failure;
        } else {
          cancelled := cancelled + [ids[i]];
        }
      }
      assert ids[..|ids|] == ids;
    }

    /** The rows are those read before anything was cancelled. */
    method AmountDue(rows: Bookings, cancelled: seq<BookingId>, f: Facts) returns (due: int)
      requires InDomain(rows, cancelled)
      ensures due == Sum(cancelled, RefundOf(rows, f))
    {
      due := 0;
      for i := 0 to |cancelled|
        invariant due == Sum(cancelled[..i], RefundOf(rows, f))
      {
        assert cancelled[..i + 1] == cancelled[..i] + [cancelled[i]];
        SumAppend(cancelled[..i], [cancelled[i]], RefundOf(rows, f));
        if Refundable(cancelled[i], f) {
          due := due + rows[cancelled[i]].total;
        }
      }
      assert cancelled[..|cancelled|] == cancelled;
    }

    method AskRefund(call: RefundCall, booking: BookingId, f: Facts)
      modifies this`refunds, this`reviews
      ensures Data() == WithRefund(old(Data()), call, booking, f)
    {
      refunds := refunds + [call];
      if !f.refundSucceeds {
        reviews := reviews + [booking];
      }
    }

    method RefundCancelled(rows: Bookings, cancelled: seq<BookingId>, anchor: BookingId,
        currency: Option<string>, f: Facts)
      requires InDomain(rows, cancelled)
      modifies this`refunds, this`reviews
      ensures var due := Sum(cancelled, RefundOf(rows, f));
        Data() == if due > 0 && currency.Some?
                  then WithRefund(old(Data()), PartOfCharge(anchor, due, currency.value), anchor, f) else old(Data())
    {
      var due := AmountDue(rows, cancelled, f);
      if due > 0 && currency.Some? {
        AskRefund(PartOfCharge(anchor, due, currency.value), anchor, f);
      }
    }

    /** Cancels every room of an order, and asks the gateway once for what the policies give back. */
    method CancelMultiRoomOrder(anchor: BookingId, reference: string, c: Cancellation,
        f: Facts) returns (reply: CancelReply)
      requires Ready(Data(), f.clock)
      modifies this
      ensures (Data(), reply) == OrderCancelled(old(Data()), anchor, reference, c, f)
    {
      hide Ready, HotelInvariant.Sound, CarriedOut, ScanChildren, FirstDecline, NoRepeats;
      ghost var was := Data();
      var rows := bookings;
      var ids := ChildrenBelow(bookings, reference, nextId);
      ChildrenNoRepeats(bookings, reference, nextId);
      assert ids == Children(was, reference);
      var error, currency := ValidateOrder(ids, c, f);
      if error.Some? {
        return NotCancelled(error.value);
      }
      PassedMayCancel(bookings, ids, c, f);
      var failure, cancelled := CancelChildren(ids, f);
      RefundCancelled(rows, cancelled, anchor, currency, f);
      return if failure.Some? then PartialFailure(failure.value) else Done;
    }

    method CancelSingle(c: Cancellation, f: Facts) returns (reply: CancelReply)
      requires Ready(Data(), f.clock) && c.booking in bookings
      modifies this
      ensures (Data(), reply) == CancelledOne(old(Data()), old(bookings[c.booking]), c, f)
    {
      var b := bookings[c.booking];
      if !CanTransition(b.status, Cancelled) {
        return NotCancelled(InvalidState);
      }
      if !c.staff && c.booking in f.windowClosed {
        return NotCancelled(WindowClosed);
      }
      if f.clock && !c.staff && !f.positionSafe {
        return NotCancelled(NeedsReview);
      }
      if NeedsProvider(b, f) {
        providerCalls := providerCalls + [c.booking];
        if Declined(b, f) {
          return NotCancelled(ProviderFailed(f.declined[b.external.value]));
        }
      }
      if Refundable(c.booking, f) && !c.skipRefund {
        AskRefund(WholeCharge(c.booking), c.booking, f);
      }
      CloseCancelled(c.booking, f.clock);
      return Done;
    }

    method CancelBooking(c: Cancellation, f: Facts) returns (reply: CancelReply)
      requires Ready(Data(), f.clock)
      modifies this
      ensures Ready(Data(), f.clock) && (old(Valid()) ==> Valid())
      ensures (Data(), reply) == BookingCancelled(old(Data()), c, f)
    {
      CancellingKeepsReady(Data(), c, f);
      if c.booking !in bookings || !OwnedBy(bookings[c.booking], c) {
        return NotCancelled(NotFound);
      }
      var b := bookings[c.booking];
      if b.version != c.version {
        return NotCancelled(VersionConflict);
      }
      if b.order.Some? && !(c.staff && c.single) {
        if !c.staff && f.clock {
          return NotCancelled(NeedsReview);
        }
        reply := CancelMultiRoomOrder(c.booking, b.order.value, c, f);
      } else {
        reply := CancelSingle(c, f);
      }
    }

    // -------------------------------------------------------------- moves and stock edits

    method MoveBookingRoom(m: Move) returns (reply: MoveReply)
      requires Valid()
      modifies this
      ensures Valid()
      ensures (Data(), reply) == MovedTo(old(Data()), m)
    {
      HotelInvariant.MoveKeepsSound(Data(), m);
      if m.booking in bookings && bookings[m.booking].roomId.None? && bookings[m.booking].status == Confirmed {
        ReleaseIsPossible(Data(), m.booking, false);
      }
      reply := Relocate(m);
    }

    method Relocate(m: Move) returns (reply: MoveReply)
      requires m.booking in bookings && bookings[m.booking].roomId.None? && bookings[m.booking].status == Confirmed ==>
        var b := bookings[m.booking]; stock == map[] || CanRelease(stock, b.typeId, b.startsOn, b.endsOn, 1)
      modifies this
      ensures (Data(), reply) == MovedTo(old(Data()), m)
    {
      if !MoveAllowed(bookings, m) {
        return MoveRefused;
      }
      var b := bookings[m.booking];
      if b.roomId == Some(m.roomId) {
        return Unchanged;
      }
      var available := ReserveRoom(m.roomId, b.startsOn, b.endsOn, m.openRooms);
      if !available {
        return MoveRefused;
      }
      if b.roomId.None? {
        ReleaseBookedUnit(b);
      }
      bookings := bookings[m.booking := b.(roomId := Some(m.roomId), version := b.version + 1)];
      return Moved;
    }

    /** All cells are checked against the stock before the first is written. */
    method EditStock(e: StockEdit) returns (applied: bool)
      requires Valid()
      modifies this
      ensures Valid()
      ensures (Data(), applied) == StockEdited(old(Data()), e)
    {
      HotelInvariant.StockEditKeepsSound(Data(), e);
      if !Editable(stock, e) {
        return false;
      }
      var before := stock;
      for i := 0 to |e.cells|
        invariant stock == Edited(before, e.(cells := e.cells[..i]))
        invariant Data() == old(Data()).(stock := stock)
      {
        var cell := e.cells[i];
        stock := stock[cell := Units(StockAfter(e, AvailableAt(before, cell)), BookedAt(stock, cell.0, cell.1))];
        OneMoreCell(before, e, i);
      }
      assert e.cells[..|e.cells|] == e.cells;
      return true;
    }
  }
}
