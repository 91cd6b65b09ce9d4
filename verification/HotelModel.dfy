/** What each booking transaction of a hotel commits, as a function of the data it starts from.  Tables this
    model does not hold (restrictions, blocks, quotes, policies, payment providers) appear as facts of the command. */
module HotelModel {
  import opened BookingStatus
  import opened Calendar
  import opened Collections
  import opened Inventory
  import opened InventoryLocks

  datatype PaymentMethod = StripeCheckout | Pokpay | PayAtHotel | Free
  datatype BookingMode = RoomTypeOnly | IndividualRoomOnly | Mixed

  /** A gateway refund that was asked for: one booking's charge, or an amount of an order's. */
  datatype RefundCall = WholeCharge(booking: BookingId) | PartOfCharge(anchor: BookingId, amount: int, currency: string)

  /** Committed rows, and the calls and review items that went with them. */
  datatype State = State(
    bookings: Bookings,
    stock: Stock,
    nextId: BookingId,
    providerCalls: seq<BookingId>,
    reviews: seq<BookingId>,
    refunds: seq<RefundCall>)

  predicate PaidOnline(payment: PaymentMethod) {
    payment == StripeCheckout || payment == Pokpay
  }

  // ---------------------------------------------------------------- one room

  /** `openRooms` and `openTypes`: what restrictions, blocks, closures and publication leave open for this stay.
      `candidates`: the rooms of the type that cost the quoted price, oldest first.  `checkout`: the payment
      provider opened a checkout session, which needs its configuration too. */
  datatype Creation = Creation(
    typeId: TypeId,
    roomId: Option<RoomId>,
    startsOn: Day,
    endsOn: Day,
    guest: string,
    total: nat,
    currency: string,
    valid: bool,
    quoteValid: bool,
    mode: BookingMode,
    candidates: seq<RoomId>,
    openRooms: set<RoomId>,
    openTypes: set<TypeId>,
    payment: PaymentMethod,
    stillFree: bool,
    checkout: bool)

  /** Refused: nothing written.  Unavailable: the row was kept as failed.  Thrown: rolled back. */
  datatype CreateReply = Booked(id: BookingId) | Refused | Unavailable(id: BookingId) | Thrown

  predicate Accepts(c: Creation) {
    && c.startsOn < c.endsOn && c.valid
    && !(c.mode == RoomTypeOnly && c.roomId.Some?)
    && !(c.mode == IndividualRoomOnly && c.roomId.None?)
  }

  predicate AutoAssigns(c: Creation) {
    c.roomId.None? && c.mode == Mixed
  }

  predicate RoomClaimable(bookings: Bookings, openRooms: set<RoomId>, roomId: RoomId, startsOn: Day, endsOn: Day) {
    roomId in openRooms && RoomIsFree(bookings, roomId, startsOn, endsOn)
  }

  /** The first candidate that can be reserved. */
  function FirstFree(bookings: Bookings, c: Creation, candidates: seq<RoomId>): (r: Option<RoomId>)
    ensures r.Some? ==> RoomClaimable(bookings, c.openRooms, r.value, c.startsOn, c.endsOn)
  {
    if candidates == [] then None
    else if RoomClaimable(bookings, c.openRooms, candidates[0], c.startsOn, c.endsOn) then Some(candidates[0])
    else FirstFree(bookings, c, candidates[1..])
  }

  predicate UnitClaimable(stock: Stock, c: Creation) {
    c.typeId in c.openTypes && CanReserve(stock, c.typeId, c.startsOn, c.endsOn, 1)
  }

  predicate Claimable(s: State, c: Creation) {
    if AutoAssigns(c) then FirstFree(s.bookings, c, c.candidates).Some?
    else if c.roomId.Some? then RoomClaimable(s.bookings, c.openRooms, c.roomId.value, c.startsOn, c.endsOn)
    else UnitClaimable(s.stock, c)
  }

  /** The room the row ends up with. */
  function ClaimedRoom(s: State, c: Creation): Option<RoomId> {
    if AutoAssigns(c) then FirstFree(s.bookings, c, c.candidates) else c.roomId
  }

  function StockAfterClaim(s: State, c: Creation): Stock {
    if ClaimedRoom(s, c).None? then Adjusted(s.stock, c.typeId, c.startsOn, c.endsOn, 1) else s.stock
  }

  function RowOf(c: Creation, roomId: Option<RoomId>, status: Status): Booking {
    Booking(c.typeId, roomId, c.startsOn, c.endsOn, status, None, 0, 1, c.guest, c.total, c.currency, None)
  }

  function Inserted(s: State, b: Booking): State {
    s.(bookings := s.bookings[s.nextId := b], nextId := s.nextId + 1)
  }

  function Created(s: State, c: Creation): (State, CreateReply) {
    if !Accepts(c) then (s, Refused)
    else if !c.quoteValid || !Claimable(s, c) then
      (Inserted(s, RowOf(c, c.roomId, AvailabilityFailed)), Unavailable(s.nextId))
    else
      var held := s.(stock := StockAfterClaim(s, c));
      var room := ClaimedRoom(s, c);
      if !PaidOnline(c.payment) then (Inserted(held, RowOf(c, room, Confirmed)), Booked(s.nextId))
      else if !c.stillFree || !c.checkout then (s, Thrown)
      else (Inserted(held, RowOf(c, room, PaymentPending)), Booked(s.nextId))
  }

  // ---------------------------------------------------------------- several rooms

  datatype Order = Order(
    reference: string,
    startsOn: Day,
    endsOn: Day,
    guest: string,
    currency: string,
    rooms: seq<RoomRequest>,
    valid: bool,
    openRooms: set<RoomId>,
    openTypes: set<TypeId>,
    payment: PaymentMethod,
    stillFree: bool,
    checkout: bool)

  /** Placed: rows and holds are committed, with the result the caller gets. */
  datatype OrderReply = Placed(first: BookingId, ok: bool) | OrderRefused | OrderThrown

  predicate AcceptsOrder(o: Order) {
    o.startsOn < o.endsOn && |o.rooms| >= 2 && NoRepeats(RoomIds(o.rooms)) && o.valid
  }

  /** How many units of a type the order wants. */
  function Wanted(rooms: seq<RoomRequest>, typeId: TypeId): nat {
    if rooms == [] then 0
    else (if rooms[0].roomId.None? && rooms[0].roomTypeId == typeId then 1 else 0) + Wanted(rooms[1..], typeId)
  }

  function UnitsByType(rooms: seq<RoomRequest>): map<TypeId, nat> {
    map t | t in TypeIds(rooms) :: Wanted(rooms, t)
  }

  function OrderClaims(o: Order): Claims {
    Claims(UnitsByType(o.rooms), o.startsOn, o.endsOn)
  }

  predicate TypeClaimable(stock: Stock, o: Order, typeId: TypeId) {
    typeId in o.openTypes && CanReserve(stock, typeId, o.startsOn, o.endsOn, Wanted(o.rooms, typeId))
  }

  predicate AllClaimable(s: State, o: Order) {
    && (forall roomId :: roomId in RoomIds(o.rooms) ==>
          RoomClaimable(s.bookings, o.openRooms, roomId, o.startsOn, o.endsOn))
    && (forall typeId :: typeId in TypeIds(o.rooms) ==> TypeClaimable(s.stock, o, typeId))
  }

  /** Order references are unique. */
  predicate ReferenceTaken(bookings: Bookings, reference: string) {
    exists id :: id in bookings && bookings[id].order == Some(reference)
  }

  /** The stock with every claim taken from it. */
  function Claimed(stock: Stock, claims: Claims): Stock {
    map k | k in stock :: Units(stock[k].available, stock[k].booked + ClaimedAt(claims, k.0, k.1))
  }

  function ChildOf(o: Order, i: nat, status: Status): Booking
    requires i < |o.rooms|
  {
    Booking(o.rooms[i].roomTypeId, o.rooms[i].roomId, o.startsOn, o.endsOn, status, Some(o.reference), i + 1, 1,
            o.guest, o.rooms[i].total, o.currency, None)
  }

  /** The rows of the first `n` rooms of an order. */
  function WithChildren(bookings: Bookings, first: BookingId, o: Order, n: nat, status: Status): Bookings
    requires n <= |o.rooms|
  {
    if n == 0 then bookings
    else WithChildren(bookings, first, o, n - 1, status)[first + n - 1 := ChildOf(o, n - 1, status)]
  }

  function OrderStatus(o: Order): Status {
    if PaidOnline(o.payment) then PaymentPending else Confirmed
  }

  function Ordered(s: State, o: Order): (State, OrderReply) {
    if !AcceptsOrder(o) then (s, OrderRefused)
    else if !AllClaimable(s, o) || ReferenceTaken(s.bookings, o.reference) then (s, OrderThrown)
    else if PaidOnline(o.payment) && !o.stillFree then (s, OrderThrown)
    else
      (s.(bookings := WithChildren(s.bookings, s.nextId, o, |o.rooms|, OrderStatus(o)),
          stock := Claimed(s.stock, OrderClaims(o)),
          nextId := s.nextId + |o.rooms|),
       Placed(s.nextId, !PaidOnline(o.payment) || o.checkout))
  }

  // ---------------------------------------------------------------- closing and confirming rows

  datatype Settlement = Confirm | Expire | Cancel

  function SettledRow(b: Booking, how: Settlement): Booking {
    match how
    case Confirm => b.(status := Confirmed)
    case Expire => b.(status := Expired)
    case Cancel => b.(status := Cancelled, version := b.version + 1)
  }

  /** A closed row gives its unit back when it holds one. */
  function Settled(s: State, id: BookingId, how: Settlement): State
    requires id in s.bookings
  {
    var b := s.bookings[id];
    s.(bookings := s.bookings[id := SettledRow(b, how)],
       stock := if how != Confirm && b.roomId.None? && Holding(b.status)
                then Adjusted(s.stock, b.typeId, b.startsOn, b.endsOn, -1) else s.stock)
  }

  function SettledAll(s: State, ids: seq<BookingId>, how: Settlement): (t: State)
    requires forall i :: 0 <= i < |ids| ==> ids[i] in s.bookings
    ensures t.bookings.Keys == s.bookings.Keys
  {
    if ids == [] then s
    else Settled(SettledAll(s, ids[..|ids| - 1], how), ids[|ids| - 1], how)
  }

  // ---------------------------------------------------------------- the children of an order

  function InsertChild(bookings: Bookings, id: BookingId, ids: seq<BookingId>): (r: seq<BookingId>)
    requires id in bookings && forall i :: 0 <= i < |ids| ==> ids[i] in bookings
    ensures |r| == |ids| + 1
    ensures forall x :: x in r <==> x == id || x in ids
  {
    if ids == [] || bookings[id].roomNumber < bookings[ids[0]].roomNumber then [id] + ids
    else [ids[0]] + InsertChild(bookings, id, ids[1..])
  }

  function ChildrenBelow(bookings: Bookings, reference: string, n: nat): (r: seq<BookingId>)
    ensures forall x :: x in r <==> x < n && x in bookings && bookings[x].order == Some(reference)
  {
    if n == 0 then []
    else
      var rest := ChildrenBelow(bookings, reference, n - 1);
      if n - 1 in bookings && bookings[n - 1].order == Some(reference) then
        assert forall i :: 0 <= i < |rest| ==> rest[i] in rest;
        InsertChild(bookings, n - 1, rest)
      else rest
  }

  /** SELECT ... WHERE order_reference = ... ORDER BY order_room_number, id */
  function Children(s: State, reference: string): (r: seq<BookingId>)
    ensures forall x :: x in r <==> x < s.nextId && x in s.bookings && s.bookings[x].order == Some(reference)
    ensures forall i :: 0 <= i < |r| ==> r[i] in s.bookings
  {
    var r := ChildrenBelow(s.bookings, reference, s.nextId);
    assert forall i :: 0 <= i < |r| ==> r[i] in r;
    r
  }

  function IsWaiting(bookings: Bookings): BookingId -> bool {
    id => id in bookings && bookings[id].status == PaymentPending
  }

  /** The children of an order still waiting for payment. */
  function WaitingChildren(s: State, reference: string): (r: seq<BookingId>)
    ensures forall i :: 0 <= i < |r| ==> r[i] in s.bookings && s.bookings[r[i]].status == PaymentPending
  {
    var r := Filter(Children(s, reference), IsWaiting(s.bookings));
    assert forall i :: 0 <= i < |r| ==> r[i] in r;
    r
  }

  // ---------------------------------------------------------------- payment and expiry

  function Paid(s: State, id: BookingId): (State, bool) {
    if id !in s.bookings then (s, false)
    else
      var b := s.bookings[id];
      if b.order.Some? then
        if b.status != PaymentPending then (s, false)
        else (SettledAll(s, WaitingChildren(s, b.order.value), Confirm), true)
      else if b.status != PaymentPending && b.status != PmsCreationPending then (s, false)
      else (Settled(s, id, Confirm), true)
  }

  /** `overdue`: the booking is older than the payment hold. */
  function PaymentExpired(s: State, id: BookingId, overdue: bool): (State, bool) {
    if id !in s.bookings || s.bookings[id].status != PaymentPending || !overdue then (s, false)
    else
      var b := s.bookings[id];
      if b.order.Some? then (SettledAll(s, WaitingChildren(s, b.order.value), Expire), true)
      else (Settled(s, id, Expire), true)
  }

  // ---------------------------------------------------------------- moving to another room

  datatype Move = Move(booking: BookingId, roomId: RoomId, version: nat, eligible: bool, roomOfType: bool, openRooms: set<RoomId>)
  datatype MoveReply = Moved | Unchanged | MoveRefused

  predicate MoveAllowed(bookings: Bookings, m: Move) {
    && m.booking in bookings
    && bookings[m.booking].version == m.version && bookings[m.booking].status == Confirmed
    && bookings[m.booking].external.None? && m.eligible && m.roomOfType
  }

  function MovedTo(s: State, m: Move): (State, MoveReply) {
    if !MoveAllowed(s.bookings, m) then (s, MoveRefused)
    else
      var b := s.bookings[m.booking];
      if b.roomId == Some(m.roomId) then (s, Unchanged)
      else if !RoomClaimable(s.bookings, m.openRooms, m.roomId, b.startsOn, b.endsOn) then (s, MoveRefused)
      else
        (s.(bookings := s.bookings[m.booking := b.(roomId := Some(m.roomId), version := b.version + 1)],
            stock := if b.roomId.None? then Adjusted(s.stock, b.typeId, b.startsOn, b.endsOn, -1) else s.stock),
         Moved)
  }

  // ---------------------------------------------------------------- stock edits

  datatype StockOperation = SetTo | Add | Subtract | Reset
  datatype StockEdit = StockEdit(operation: StockOperation, value: nat, cells: seq<(TypeId, Day)>, today: Day, writable: bool)

  const MAX_STOCK := 2147483647

  function StockAfter(e: StockEdit, before: int): int {
    match e.operation
    case Reset => 0
    case SetTo => e.value
    case Add => before + e.value
    case Subtract => before - e.value
  }

  function AvailableAt(stock: Stock, cell: (TypeId, Day)): int {
    if cell in stock then stock[cell].available else 0
  }

  predicate CellEditable(stock: Stock, e: StockEdit, cell: (TypeId, Day)) {
    var after := StockAfter(e, AvailableAt(stock, cell));
    e.today <= cell.1 && BookedAt(stock, cell.0, cell.1) <= after && 0 <= after <= MAX_STOCK
  }

  predicate Editable(stock: Stock, e: StockEdit) {
    e.writable && forall i :: 0 <= i < |e.cells| ==> CellEditable(stock, e, e.cells[i])
  }

  /** Upsert: every cell gets its new stock, computed from the stock before the edit; counts stay. */
  function Edited(stock: Stock, e: StockEdit): Stock {
    map k | k in stock.Keys + (set cell | cell in e.cells) ::
      Units(if k in e.cells then StockAfter(e, AvailableAt(stock, k)) else AvailableAt(stock, k),
            BookedAt(stock, k.0, k.1))
  }

  function StockEdited(s: State, e: StockEdit): (State, bool) {
    if Editable(s.stock, e) then (s.(stock := Edited(s.stock, e)), true) else (s, false)
  }
}
