/** The unit ledger of a hotel that keeps its own stock: per room type and night, how many units can be
    sold and how many are booked, and what the bookings say they should be. */
module Inventory {
  import opened BookingStatus
  import opened Calendar
  import opened Collections

  type TypeId = string
  type RoomId = string
  type BookingId = nat

  datatype Units = Units(available: int, booked: int)
  type Stock = map<(TypeId, Day), Units>

  /** A booking row.  `order` is the order reference of a multi-room child; amounts are minor units. */
  datatype Booking = Booking(
    typeId: TypeId,
    roomId: Option<RoomId>,
    startsOn: Day,
    endsOn: Day,
    status: Status,
    order: Option<string>,
    roomNumber: nat,
    version: nat,
    guest: string,
    total: nat,
    currency: string,
    external: Option<string>)

  type Bookings = map<BookingId, Booking>

  // ---------------------------------------------------------------- stock

  function BookedAt(stock: Stock, typeId: TypeId, night: Day): int {
    if (typeId, night) in stock then stock[(typeId, night)].booked else 0
  }

  /** Every night of the range has a row, and enough units left on it. */
  predicate CanReserve(stock: Stock, typeId: TypeId, startsOn: Day, endsOn: Day, units: int) {
    forall night :: startsOn <= night < endsOn ==>
      (typeId, night) in stock &&
      stock[(typeId, night)].booked + units <= stock[(typeId, night)].available
  }

  predicate CanRelease(stock: Stock, typeId: TypeId, startsOn: Day, endsOn: Day, units: int) {
    forall night :: startsOn <= night < endsOn ==>
      (typeId, night) in stock && 0 <= stock[(typeId, night)].booked - units
  }

  /** `booked_units` of the range changed by `change`. */
  function Adjusted(stock: Stock, typeId: TypeId, startsOn: Day, endsOn: Day, change: int): Stock {
    map k | k in stock ::
      if k.0 == typeId && startsOn <= k.1 < endsOn
      then Units(stock[k].available, stock[k].booked + change)
      else stock[k]
  }

  // ---------------------------------------------------------------- bookings

  /** Statuses whose booking gives its unit back when it is closed. */
  predicate Holding(status: Status) {
    status == PaymentPending || status == PmsConfirmationPending || status == Confirmed
  }

  predicate HoldsUnit(b: Booking, typeId: TypeId, night: Day) {
    b.typeId == typeId && b.roomId.None? && Holding(b.status) && OccupiesNight(b.startsOn, b.endsOn, night)
  }

  function Holders(bookings: Bookings, typeId: TypeId, night: Day): set<BookingId> {
    set id | id in bookings && HoldsUnit(bookings[id], typeId, night)
  }

  /** Statuses that keep an individual room occupied. */
  predicate Blocking(status: Status) {
    status != Draft && status != Quoted && status != InventoryRevalidating &&
    status != AvailabilityFailed && status != Cancelled && status != Expired
  }

  predicate BlocksRoom(b: Booking, roomId: RoomId, startsOn: Day, endsOn: Day) {
    b.roomId == Some(roomId) && b.startsOn < endsOn && b.endsOn > startsOn && Blocking(b.status)
  }

  predicate RoomIsFree(bookings: Bookings, roomId: RoomId, startsOn: Day, endsOn: Day) {
    forall id :: id in bookings ==> !BlocksRoom(bookings[id], roomId, startsOn, endsOn)
  }

  // ---------------------------------------------------------------- what the ledger must say

  /** Units taken from the stock inside a transaction and not yet carried by a booking row. */
  datatype Claims = Claims(units: map<TypeId, nat>, startsOn: Day, endsOn: Day)

  const NO_CLAIMS := Claims(map[], 0, 0)

  function UnitsOf(c: Claims, typeId: TypeId): nat {
    if typeId in c.units then c.units[typeId] else 0
  }

  function ClaimedAt(c: Claims, typeId: TypeId, night: Day): nat {
    if OccupiesNight(c.startsOn, c.endsOn, night) then UnitsOf(c, typeId) else 0
  }

  /** Booked units are exactly the claims plus the room-less bookings that hold the night. */
  ghost predicate Balanced(bookings: Bookings, stock: Stock, claims: Claims) {
    forall typeId, night {:trigger Holders(bookings, typeId, night)} {:trigger BookedAt(stock, typeId, night)} ::
      BookedAt(stock, typeId, night) == |Holders(bookings, typeId, night)| + ClaimedAt(claims, typeId, night)
  }

  ghost predicate WithinCapacity(stock: Stock) {
    forall k :: k in stock ==> 0 <= stock[k].booked <= stock[k].available
  }

  /** No two bookings keep one room on overlapping stays. */
  ghost predicate RoomsNotShared(bookings: Bookings) {
    forall i, j :: i in bookings && j in bookings && i != j && bookings[j].roomId.Some? && Blocking(bookings[j].status) ==>
      !BlocksRoom(bookings[i], bookings[j].roomId.value, bookings[j].startsOn, bookings[j].endsOn)
  }

  /** One row written: its contribution changes and no other. */
  lemma {:induction false} HoldersChange(bookings: Bookings, id: BookingId, b: Booking, typeId: TypeId, night: Day)
    ensures |Holders(bookings[id := b], typeId, night)|
         == |Holders(bookings, typeId, night)|
            - (if id in bookings && HoldsUnit(bookings[id], typeId, night) then 1 else 0)
            + (if HoldsUnit(b, typeId, night) then 1 else 0)
  {
    var was, now := Holders(bookings, typeId, night), Holders(bookings[id := b], typeId, night);
    OthersHold(bookings, id, b, typeId, night);
    SizeWithout(was, id);
    SizeWithout(now, id);
  }

  lemma {:induction false} OthersHold(bookings: Bookings, id: BookingId, b: Booking, typeId: TypeId, night: Day)
    ensures Holders(bookings[id := b], typeId, night) - {id} == Holders(bookings, typeId, night) - {id}
  {
    hide HoldsUnit;
    forall x | x != id
      ensures x in Holders(bookings[id := b], typeId, night) <==> x in Holders(bookings, typeId, night)
    {
    }
  }

  lemma {:induction false} SizeWithout(s: set<BookingId>, x: BookingId)
    ensures |s| == |s - {x}| + if x in s then 1 else 0
  {
    if x in s {
      assert s == (s - {x}) + {x};
    } else {
      assert s == s - {x};
    }
  }

  lemma {:induction false} AdjustedAt(stock: Stock, typeId: TypeId, startsOn: Day, endsOn: Day, change: int,
      t: TypeId, night: Day)
    requires forall n :: startsOn <= n < endsOn ==> (typeId, n) in stock
    ensures BookedAt(Adjusted(stock, typeId, startsOn, endsOn, change), t, night)
         == BookedAt(stock, t, night) + if t == typeId && OccupiesNight(startsOn, endsOn, night) then change else 0
  {
    if t == typeId && OccupiesNight(startsOn, endsOn, night) {
      assert (typeId, night) in stock;
    }
  }

  /** A reservation moves units from the stock to the claims, and never oversells. */
  lemma {:induction false} ReserveKeepsBalance(bookings: Bookings, stock: Stock, claims: Claims,
      typeId: TypeId, units: nat)
    requires Balanced(bookings, stock, claims) && WithinCapacity(stock)
    requires CanReserve(stock, typeId, claims.startsOn, claims.endsOn, units)
    ensures var after := Adjusted(stock, typeId, claims.startsOn, claims.endsOn, units);
      && Balanced(bookings, after, claims.(units := claims.units[typeId := UnitsOf(claims, typeId) + units]))
      && WithinCapacity(after)
  {
    var after := Adjusted(stock, typeId, claims.startsOn, claims.endsOn, units);
    var more := claims.(units := claims.units[typeId := UnitsOf(claims, typeId) + units]);
    forall t, night
      ensures BookedAt(after, t, night) == |Holders(bookings, t, night)| + ClaimedAt(more, t, night)
    {
      AdjustedAt(stock, typeId, claims.startsOn, claims.endsOn, units, t, night);
      assert BookedAt(stock, t, night) == |Holders(bookings, t, night)| + ClaimedAt(claims, t, night);
    }
    forall k | k in after
      ensures 0 <= after[k].booked <= after[k].available
    {
      assert 0 <= stock[k].booked <= stock[k].available;
      if k.0 == typeId && claims.startsOn <= k.1 < claims.endsOn {
        assert (typeId, k.1) in stock && k == (typeId, k.1);
      }
    }
  }

  /** A new row takes over one claimed unit when it holds one, and needs none when it does not. */
  lemma {:induction false} InsertKeepsBalance(bookings: Bookings, stock: Stock, claims: Claims, id: BookingId,
      b: Booking)
    requires Balanced(bookings, stock, claims) && id !in bookings
    requires b.startsOn == claims.startsOn && b.endsOn == claims.endsOn
    requires b.roomId.None? && Holding(b.status) ==> UnitsOf(claims, b.typeId) > 0
    ensures Balanced(bookings[id := b], stock,
      if b.roomId.None? && Holding(b.status)
      then claims.(units := claims.units[b.typeId := (UnitsOf(claims, b.typeId) - 1) as nat]) else claims)
  {
    var rest := if b.roomId.None? && Holding(b.status)
      then claims.(units := claims.units[b.typeId := (UnitsOf(claims, b.typeId) - 1) as nat]) else claims;
    forall t, night
      ensures BookedAt(stock, t, night) == |Holders(bookings[id := b], t, night)| + ClaimedAt(rest, t, night)
    {
      HoldersChange(bookings, id, b, t, night);
      assert BookedAt(stock, t, night) == |Holders(bookings, t, night)| + ClaimedAt(claims, t, night);
    }
  }

  /** Between transactions a room-less booking that holds its nights can always give them back. */
  lemma {:induction false} ReleaseNeverFails(bookings: Bookings, stock: Stock, id: BookingId)
    requires Balanced(bookings, stock, NO_CLAIMS)
    requires id in bookings && bookings[id].roomId.None? && Holding(bookings[id].status)
    ensures CanRelease(stock, bookings[id].typeId, bookings[id].startsOn, bookings[id].endsOn, 1)
  {
    var b := bookings[id];
    forall night | b.startsOn <= night < b.endsOn
      ensures (b.typeId, night) in stock && 0 <= stock[(b.typeId, night)].booked - 1
    {
      assert id in Holders(bookings, b.typeId, night);
      assert |Holders(bookings, b.typeId, night)| > 0;
      assert BookedAt(stock, b.typeId, night) == |Holders(bookings, b.typeId, night)|;
    }
  }

  /** Giving the unit back while the row stops holding it keeps the balance. */
  lemma {:induction false} ReleaseKeepsBalance(bookings: Bookings, stock: Stock, id: BookingId, b: Booking)
    requires Balanced(bookings, stock, NO_CLAIMS) && WithinCapacity(stock)
    requires id in bookings && bookings[id].roomId.None? && Holding(bookings[id].status)
    requires b.roomId.Some? || !Holding(b.status)
    ensures var after := Adjusted(stock, bookings[id].typeId, bookings[id].startsOn, bookings[id].endsOn, -1);
      Balanced(bookings[id := b], after, NO_CLAIMS) && WithinCapacity(after)
  {
    var was := bookings[id];
    var after := Adjusted(stock, was.typeId, was.startsOn, was.endsOn, -1);
    ReleaseNeverFails(bookings, stock, id);
    forall t, night
      ensures BookedAt(after, t, night) == |Holders(bookings[id := b], t, night)| + ClaimedAt(NO_CLAIMS, t, night)
    {
      AdjustedAt(stock, was.typeId, was.startsOn, was.endsOn, -1, t, night);
      HoldersChange(bookings, id, b, t, night);
      assert BookedAt(stock, t, night) == |Holders(bookings, t, night)|;
    }
    forall k | k in after
      ensures 0 <= after[k].booked <= after[k].available
    {
      assert 0 <= stock[k].booked <= stock[k].available;
      if k.0 == was.typeId && was.startsOn <= k.1 < was.endsOn {
        assert k == (was.typeId, k.1);
      }
    }
  }

  /** A row rewritten without changing what it holds. */
  lemma {:induction false} RewriteKeepsBalance(bookings: Bookings, stock: Stock, id: BookingId, b: Booking)
    requires Balanced(bookings, stock, NO_CLAIMS) && id in bookings
    requires forall t, night :: HoldsUnit(b, t, night) == HoldsUnit(bookings[id], t, night)
    ensures Balanced(bookings[id := b], stock, NO_CLAIMS)
  {
    forall t, night
      ensures BookedAt(stock, t, night) == |Holders(bookings[id := b], t, night)| + ClaimedAt(NO_CLAIMS, t, night)
    {
      HoldersChange(bookings, id, b, t, night);
      assert BookedAt(stock, t, night) == |Holders(bookings, t, night)|;
    }
  }
}
