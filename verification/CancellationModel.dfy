/** Cancelling a booking, or every room of a multi-room order at once. */
module CancellationModel {
  import opened BookingStatus
  import opened Collections
  import opened HotelModel
  import opened Inventory

  /** `staff` cancellations name no guest; `single` asks for one room of an order only. */
  datatype Cancellation = Cancellation(
    booking: BookingId, version: nat, staff: bool, guest: string, single: bool, skipRefund: bool)

  /** What the policies, the clock and the outside systems say.  `declined` maps a provider's reservation to
      whether its refusal may be retried; `free` bookings get their money back unless listed in `manualRefund`. */
  datatype Facts = Facts(
    clock: bool,
    windowClosed: set<BookingId>,
    free: set<BookingId>,
    manualRefund: set<BookingId>,
    declined: map<string, bool>,
    positionSafe: bool,
    refundSucceeds: bool)

  datatype CancelError =
    | NotFound | VersionConflict | InvalidState | WindowClosed | CurrencyMismatch | NeedsReview
    | ProviderFailed(retryable: bool)

  datatype CancelReply = Done | PartialFailure(retryable: bool) | NotCancelled(error: CancelError)

  predicate OwnedBy(b: Booking, c: Cancellation) {
    c.staff || b.guest == c.guest
  }

  predicate NeedsProvider(b: Booking, f: Facts) {
    f.clock && b.external.Some?
  }

  predicate Declined(b: Booking, f: Facts) {
    NeedsProvider(b, f) && b.external.value in f.declined
  }

  predicate Refundable(id: BookingId, f: Facts) {
    id in f.free && id !in f.manualRefund
  }

  // ---------------------------------------------------------------- validating an order

  /** The checks of one child, apart from the currency. */
  function ChildError(b: Booking, id: BookingId, c: Cancellation, f: Facts): Option<CancelError> {
    if !OwnedBy(b, c) then Some(NotFound)
    else if !CanTransition(b.status, Cancelled) then Some(InvalidState)
    else if !c.staff && id in f.windowClosed then Some(WindowClosed)
    else None
  }

  /** The first error met, and the currency the free children share so far. */
  datatype Scan = Scan(error: Option<CancelError>, currency: Option<string>)

  function ScanChild(scan: Scan, b: Booking, id: BookingId, c: Cancellation, f: Facts): Scan {
    if scan.error.Some? then scan
    else
      var error := ChildError(b, id, c, f);
      if error.Some? then scan.(error := error)
      else if id !in f.free then scan
      else if scan.currency.Some? && scan.currency.value != b.currency then scan.(error := Some(CurrencyMismatch))
      else scan.(currency := Some(b.currency))
  }

  function ScanChildren(bookings: Bookings, ids: seq<BookingId>, c: Cancellation, f: Facts): Scan
    requires forall i :: 0 <= i < |ids| ==> ids[i] in bookings
  {
    if ids == [] then Scan(None, None)
    else
      var last := ids[|ids| - 1];
      ScanChild(ScanChildren(bookings, ids[..|ids| - 1], c, f), bookings[last], last, c, f)
  }

  ghost predicate InDomain(bookings: Bookings, ids: seq<BookingId>) {
    forall i :: 0 <= i < |ids| ==> ids[i] in bookings
  }

  /** Every child passes on its own, and the free ones are all in `currency`. */
  ghost predicate Passing(bookings: Bookings, ids: seq<BookingId>, c: Cancellation, f: Facts, currency: Option<string>)
    requires InDomain(bookings, ids)
  {
    forall i :: 0 <= i < |ids| ==>
      ChildError(bookings[ids[i]], ids[i], c, f).None? &&
      (ids[i] in f.free ==> currency == Some(bookings[ids[i]].currency))
  }

  lemma {:induction false} ScanAccepts(bookings: Bookings, ids: seq<BookingId>, c: Cancellation, f: Facts)
    requires InDomain(bookings, ids)
    requires ScanChildren(bookings, ids, c, f).error.None?
    ensures Passing(bookings, ids, c, f, ScanChildren(bookings, ids, c, f).currency)
    ensures ScanChildren(bookings, ids, c, f).currency.Some? ==> exists i :: 0 <= i < |ids| && ids[i] in f.free
  {
    if ids != [] {
      var n := |ids| - 1;
      ScanAccepts(bookings, ids[..n], c, f);
      var before := ScanChildren(bookings, ids[..n], c, f);
      assert ScanChildren(bookings, ids, c, f) == ScanChild(before, bookings[ids[n]], ids[n], c, f);
      forall i | 0 <= i < |ids|
        ensures ChildError(bookings[ids[i]], ids[i], c, f).None?
        ensures ids[i] in f.free ==> ScanChildren(bookings, ids, c, f).currency == Some(bookings[ids[i]].currency)
      {
        if i < n {
          assert ids[..n][i] == ids[i];
        }
      }
      if ids[n] !in f.free && before.currency.Some? {
        var i :| 0 <= i < n && ids[..n][i] in f.free;
        assert ids[i] in f.free;
      }
    }
  }

  lemma {:induction false} ScanComplete(bookings: Bookings, ids: seq<BookingId>, c: Cancellation, f: Facts,
      currency: Option<string>)
    requires InDomain(bookings, ids) && Passing(bookings, ids, c, f, currency)
    ensures ScanChildren(bookings, ids, c, f).error.None?
    ensures ScanChildren(bookings, ids, c, f).currency.Some? ==> ScanChildren(bookings, ids, c, f).currency == currency
  {
    if ids != [] {
      var n := |ids| - 1;
      assert forall i :: 0 <= i < n ==> ids[..n][i] == ids[i];
      ScanComplete(bookings, ids[..n], c, f, currency);
      assert ids[n] == ids[|ids| - 1];
    }
  }

  /** An order is cancelled at all exactly when each child may be and the free ones share one currency. */
  lemma {:induction false} OrderPassesIff(bookings: Bookings, ids: seq<BookingId>, c: Cancellation, f: Facts)
    requires InDomain(bookings, ids)
    ensures ScanChildren(bookings, ids, c, f).error.None? <==>
      exists currency: Option<string> :: Passing(bookings, ids, c, f, currency)
  {
    if ScanChildren(bookings, ids, c, f).error.None? {
      ScanAccepts(bookings, ids, c, f);
    }
    if currency: Option<string> :| Passing(bookings, ids, c, f, currency) {
      ScanComplete(bookings, ids, c, f, currency);
    }
  }

  // ---------------------------------------------------------------- carrying it out

  function IsAccepted(bookings: Bookings, f: Facts): BookingId -> bool {
    id => id in bookings && !Declined(bookings[id], f)
  }

  function IsDeclined(bookings: Bookings, f: Facts): BookingId -> bool {
    id => id in bookings && Declined(bookings[id], f)
  }

  function IsCalled(bookings: Bookings, f: Facts): BookingId -> bool {
    id => id in bookings && NeedsProvider(bookings[id], f)
  }

  function RefundOf(bookings: Bookings, f: Facts): BookingId -> int {
    id => if id in bookings && Refundable(id, f) then bookings[id].total else 0
  }

  function TotalOf(bookings: Bookings): BookingId -> int {
    id => if id in bookings then bookings[id].total else 0
  }

  function AcceptedOf(bookings: Bookings, ids: seq<BookingId>, f: Facts): (r: seq<BookingId>)
    ensures forall i :: 0 <= i < |r| ==> r[i] in bookings && r[i] in ids
  {
    var r := Filter(ids, IsAccepted(bookings, f));
    assert forall i :: 0 <= i < |r| ==> r[i] in r;
    r
  }

  /** The amount asked back: the totals of the cancelled children whose policy refunds them. */
  function RefundDue(bookings: Bookings, ids: seq<BookingId>, f: Facts): int {
    Sum(AcceptedOf(bookings, ids, f), RefundOf(bookings, f))
  }

  /** Whether the first refusal may be retried. */
  function FirstDecline(bookings: Bookings, ids: seq<BookingId>, f: Facts): Option<bool> {
    var declined := Filter(ids, IsDeclined(bookings, f));
    if declined == [] then None
    else
      assert declined[0] in declined;
      Some(f.declined[bookings[declined[0]].external.value])
  }

  function WithRefund(s: State, call: RefundCall, booking: BookingId, f: Facts): State {
    s.(refunds := s.refunds + [call], reviews := s.reviews + if f.refundSucceeds then [] else [booking])
  }

  /** Every child offered to the provider that needs it, and cancelled here unless declined there. */
  function CarriedOut(s: State, ids: seq<BookingId>, f: Facts): State {
    SettledAll(s, AcceptedOf(s.bookings, ids, f), Cancel).(
      providerCalls := s.providerCalls + Filter(ids, IsCalled(s.bookings, f)),
      reviews := s.reviews + Filter(ids, IsDeclined(s.bookings, f)))
  }

  function OrderCancelled(s: State, anchor: BookingId, reference: string, c: Cancellation, f: Facts): (State,
      CancelReply) {
    var ids := Children(s, reference);
    var scan := ScanChildren(s.bookings, ids, c, f);
    if scan.error.Some? then (s, NotCancelled(scan.error.value))
    else
      var due := RefundDue(s.bookings, ids, f);
      var settled := CarriedOut(s, ids, f);
      var decline := FirstDecline(s.bookings, ids, f);
      (if due > 0 && scan.currency.Some?
         then WithRefund(settled, PartOfCharge(anchor, due, scan.currency.value), anchor, f) else settled,
       if decline.Some? then PartialFailure(decline.value) else Done)
  }

  function CancelledOne(s: State, b: Booking, c: Cancellation, f: Facts): (State, CancelReply)
    requires c.booking in s.bookings && b == s.bookings[c.booking]
  {
    if !CanTransition(b.status, Cancelled) then (s, NotCancelled(InvalidState))
    else if !c.staff && c.booking in f.windowClosed then (s, NotCancelled(WindowClosed))
    else if f.clock && !c.staff && !f.positionSafe then (s, NotCancelled(NeedsReview))
    else
      var called := if NeedsProvider(b, f) then s.(providerCalls := s.providerCalls + [c.booking]) else s;
      if Declined(b, f) then (called, NotCancelled(ProviderFailed(f.declined[b.external.value])))
      else
        var refunded := if Refundable(c.booking, f) && !c.skipRefund
                        then WithRefund(called, WholeCharge(c.booking), c.booking, f) else called;
        (Settled(refunded, c.booking, Cancel), Done)
  }

  function BookingCancelled(s: State, c: Cancellation, f: Facts): (State, CancelReply) {
    if c.booking !in s.bookings || !OwnedBy(s.bookings[c.booking], c) then (s, NotCancelled(NotFound))
    else
      var b := s.bookings[c.booking];
      if b.version != c.version then (s, NotCancelled(VersionConflict))
      else if b.order.Some? && !(c.staff && c.single) then
        if !c.staff && f.clock then (s, NotCancelled(NeedsReview))
        else OrderCancelled(s, c.booking, b.order.value, c, f)
      else CancelledOne(s, b, c, f)
  }

  // ---------------------------------------------------------------- what a cancelled order looks like

  lemma {:induction false} InsertChildNoRepeats(bookings: Bookings, id: BookingId, ids: seq<BookingId>)
    requires id in bookings && (forall i :: 0 <= i < |ids| ==> ids[i] in bookings)
    requires NoRepeats(ids) && id !in ids
    ensures NoRepeats(InsertChild(bookings, id, ids))
  {
    if ids != [] && bookings[id].roomNumber >= bookings[ids[0]].roomNumber {
      InsertChildNoRepeats(bookings, id, ids[1..]);
      var rest := InsertChild(bookings, id, ids[1..]);
      assert forall i :: 0 <= i < |rest| ==> rest[i] in rest;
    }
  }

  lemma {:induction false} ChildrenNoRepeats(bookings: Bookings, reference: string, n: nat)
    ensures NoRepeats(ChildrenBelow(bookings, reference, n))
  {
    if n > 0 {
      ChildrenNoRepeats(bookings, reference, n - 1);
      var rest := ChildrenBelow(bookings, reference, n - 1);
      if n - 1 in bookings && bookings[n - 1].order == Some(reference) {
        assert forall i :: 0 <= i < |rest| ==> rest[i] in rest;
        InsertChildNoRepeats(bookings, n - 1, rest);
      }
    }
  }

  /** Each listed row is settled once; every other row and all the rest of the state stay as they were. */
  lemma {:induction false} SettledAllRows(s: State, ids: seq<BookingId>, how: Settlement)
    requires NoRepeats(ids) && InDomain(s.bookings, ids)
    ensures var t := SettledAll(s, ids, how);
      && (forall id :: id in s.bookings ==>
            t.bookings[id] == if id in ids then SettledRow(s.bookings[id], how) else s.bookings[id])
      && t == s.(bookings := t.bookings, stock := t.stock)
  {
    if ids != [] {
      var n := |ids| - 1;
      SettledAllRows(s, ids[..n], how);
      assert ids == ids[..n] + [ids[n]];
      assert ids[n] !in ids[..n];
    }
  }

  lemma {:induction false} SumBounds(ids: seq<BookingId>, p: BookingId -> bool, part: BookingId -> int,
      whole: BookingId -> int)
    requires forall id :: 0 <= part(id) <= whole(id)
    ensures 0 <= Sum(Filter(ids, p), part) <= Sum(ids, whole)
  {
    if ids != [] {
      SumBounds(ids[1..], p, part, whole);
    }
  }

  /** A positive refund comes from some free child. */
  lemma {:induction false} DueHasFreeChild(ids: seq<BookingId>, bookings: Bookings, f: Facts)
    requires Sum(ids, RefundOf(bookings, f)) > 0
    ensures exists i :: 0 <= i < |ids| && ids[i] in f.free
  {
    if RefundOf(bookings, f)(ids[0]) > 0 {
      assert ids[0] in f.free;
    } else {
      DueHasFreeChild(ids[1..], bookings, f);
      var i :| 0 <= i < |ids| - 1 && ids[1..][i] in f.free;
      assert ids[i + 1] in f.free;
    }
  }

  /** Exactly the children the provider did not decline are cancelled; every other row is as it was. */
  ghost predicate CancelsAccepted(s: State, t: State, ids: seq<BookingId>, f: Facts) {
    t.bookings.Keys == s.bookings.Keys &&
    forall id :: id in s.bookings ==>
      t.bookings[id] == if id in ids && !Declined(s.bookings[id], f) then SettledRow(s.bookings[id], Cancel) else s.bookings[id]
  }

  lemma {:induction false} AcceptedAreCancelled(s: State, ids: seq<BookingId>, f: Facts)
    requires NoRepeats(ids) && InDomain(s.bookings, ids)
    ensures CancelsAccepted(s, CarriedOut(s, ids, f), ids, f)
    ensures CarriedOut(s, ids, f).refunds == s.refunds
  {
    FilterNoRepeats(ids, IsAccepted(s.bookings, f));
    SettledAllRows(s, AcceptedOf(s.bookings, ids, f), Cancel);
  }

  lemma {:induction false} DueIsBounded(s: State, ids: seq<BookingId>, f: Facts)
    requires InDomain(s.bookings, ids)
    ensures 0 <= RefundDue(s.bookings, ids, f) <= Sum(ids, TotalOf(s.bookings))
  {
    SumBounds(ids, IsAccepted(s.bookings, f), RefundOf(s.bookings, f), TotalOf(s.bookings));
  }

  /** When something is due, some child of the order is free, so the refund has a currency. */
  lemma {:induction false} DueHasCurrency(s: State, ids: seq<BookingId>, c: Cancellation, f: Facts) returns (i: nat)
    requires InDomain(s.bookings, ids) && RefundDue(s.bookings, ids, f) > 0
    requires ScanChildren(s.bookings, ids, c, f).error.None?
    ensures i < |ids| && ids[i] in f.free
    ensures ScanChildren(s.bookings, ids, c, f).currency == Some(s.bookings[ids[i]].currency)
  {
    var done := AcceptedOf(s.bookings, ids, f);
    DueHasFreeChild(done, s.bookings, f);
    var k :| 0 <= k < |done| && done[k] in f.free;
    assert done[k] in ids;
    i :| 0 <= i < |ids| && ids[i] == done[k];
    ScanAccepts(s.bookings, ids, c, f);
  }

  ghost predicate AsksIn(s: State, t: State, anchor: BookingId, ids: seq<BookingId>, f: Facts, i: nat)
    requires InDomain(s.bookings, ids)
  {
    i < |ids| && ids[i] in f.free &&
    t.refunds == s.refunds + [PartOfCharge(anchor, RefundDue(s.bookings, ids, f), s.bookings[ids[i]].currency)]
  }

  /** The one refund asked for: the exact amount due, in the currency of the free children. */
  ghost predicate RefundAsked(s: State, t: State, anchor: BookingId, ids: seq<BookingId>, f: Facts)
    requires InDomain(s.bookings, ids)
  {
    var due := RefundDue(s.bookings, ids, f);
    if due == 0 then t.refunds == s.refunds
    else exists i :: AsksIn(s, t, anchor, ids, f, i)
  }

  /** One review item per declined child, and one more for the order when its refund failed. */
  ghost predicate ReviewsRecorded(s: State, t: State, anchor: BookingId, ids: seq<BookingId>, f: Facts) {
    var declined := Filter(ids, IsDeclined(s.bookings, f));
    t.reviews == s.reviews + declined
      + if RefundDue(s.bookings, ids, f) > 0 && !f.refundSucceeds then [anchor] else []
  }

  /** The whole of an order's cancellation.  A failed check changes nothing and calls nobody.  Otherwise exactly
      the children not declined by the provider are cancelled, each declined child is left as it was with one
      review item, the provider is called once per child that needs it, and one refund is asked for: the exact
      sum of the cancelled children that are free and refunded automatically, never above the order's total. */
  lemma {:induction false} OrderCancellationExact(s: State, anchor: BookingId, reference: string,
      c: Cancellation, f: Facts)
    ensures var (t, reply) := OrderCancelled(s, anchor, reference, c, f);
      var ids := Children(s, reference);
      NoRepeats(ids) &&
      if reply.NotCancelled? then t == s
      else
        && CancelsAccepted(s, t, ids, f)
        && ReviewsRecorded(s, t, anchor, ids, f)
        && RefundAsked(s, t, anchor, ids, f)
        && 0 <= RefundDue(s.bookings, ids, f) <= Sum(ids, TotalOf(s.bookings))
        && t.providerCalls == s.providerCalls + Filter(ids, IsCalled(s.bookings, f))
  {
    var ids := Children(s, reference);
    ChildrenNoRepeats(s.bookings, reference, s.nextId);
    if ScanChildren(s.bookings, ids, c, f).error.None? {
      AcceptedAreCancelled(s, ids, f);
      DueIsBounded(s, ids, f);
      if RefundDue(s.bookings, ids, f) > 0 {
        var i := DueHasCurrency(s, ids, c, f);
        assert AsksIn(s, OrderCancelled(s, anchor, reference, c, f).0, anchor, ids, f, i);
      }
    }
  }

  /** The caller hears of a partial failure exactly when the provider declined some child. */
  lemma {:induction false} PartialFailureIff(s: State, anchor: BookingId, reference: string, c: Cancellation, f: Facts)
    requires !OrderCancelled(s, anchor, reference, c, f).1.NotCancelled?
    ensures OrderCancelled(s, anchor, reference, c, f).1.PartialFailure? <==>
      exists id :: id in Children(s, reference) && Declined(s.bookings[id], f)
  {
    var declined := Filter(Children(s, reference), IsDeclined(s.bookings, f));
    if declined != [] {
      assert declined[0] in declined;
    }
  }
}
