# Booking domain model

A Dafny model of the booking domain of the hotel API, plus the lane layout of the web calendar, with proofs of
what its rules, its money and its transactions guarantee. `dafny verify dfyconfig.toml` checks all of it.

| file | what it models |
|---|---|
| `Restrictions`, `RestrictionConflicts`, `RestrictionHistory`, `BookingRules` | stay restrictions: the sampled evaluator, the seven-day conflict look-ahead, the life of the rules, the acceptance of a stay |
| `PricingModel`, `PricingEvaluator`, `PricingProperties`, `PricingOrder`, `PricingMonotone` | the pricing loop, and what a valid price means |
| `Money`, `Promo`, `Quote` | decimal text, rounding, promo discounts spread over nights, the quote that is signed |
| `Inventory`, `HotelModel`, `HotelInvariant`, `Hotel` | the unit ledger and the booking transactions of a hotel with its own stock, over every history |
| `RowHistory`, `FailedCheckout` | what any history does to a row; online bookings whose checkout fails, and what the expiry of a hold gives back |
| `CancellationModel`, `OrderRefunds`, `RefundHistory`, `RefundEligibility` | cancelling a room or a whole order, and what can be refunded |
| `Approval` | the reviewed cancellation: intent before effect, crashes, retries, competing reviewers |
| `Idempotency`, `StableJson` | keyed operations and the canonical text their requests are compared by |
| `PromoCap`, `BookingStatus`, `InventoryLocks` | the cap on promo uses, the status table, lock order and freedom from deadlock |
| `Lanes` | interval packing of the calendar |
| `Search`, `SearchClauses`, `SearchRows`, `SqlText`, `LikePatterns` | the search filters compiled to the text of a parameterised WHERE clause, a parser for such text, LIKE patterns |
| `Calendar`, `Collections`, `Numerals`, `Text` | days, sequences and sets, decimal digits, the order of strings |

Days are integers (ISO dates order the same way, a weekday is the day modulo seven) and stays are half-open.
Money is an integer number of minor units, with its decimal text as a separate layer. A database transaction is
one step, except where interleaving is the subject (`Approval`, `PromoCap`, `InventoryLocks`). Code that changes
state is a class or a loop, proved equal to a function of the old state; the theorems are about that function.

What the outside decides enters as an input: today's day number, which currencies have two decimals, quotes,
policies, restrictions and blocks at the time of a claim (`openRooms`, `openTypes`), gateway and provider answers.

## Where the code and its descriptions differ

- **Discounted nights.** `discountNights` is described as keeping the nights' sum equal to the discounted total.
  That holds exactly when the last night can absorb the rounding remainder (`Promo.NightsAddUpIff`); otherwise
  the clamp at zero leaves the sum above it, by at most `n - 2` minor units for `n` nights, a bound that is
  reached for every `n` (`Promo.ExcessBounded`, `Promo.ExcessReached`).
- **Lanes.** With stays of at least one night `packLanes` uses as few lanes as possible. An empty stay strictly
  inside a busiest night costs one lane more, and nothing else does (`Lanes.LaneCount`).
- **Canonical JSON.** `stableJson` prints `[undefined]` and `[]` alike; apart from that array two values print
  alike only when they are equal up to key order (`StableJson.CanonicalIff`).
- **Promo cap.** The one status change that returns a spent use, PMS_REJECTED to MANUAL_REVIEW, does not look at
  the limit. Such a return keeps the cap exactly when the code is not full, that is when its uses and the uses
  promised to open transactions are below the limit before the change (`PromoCap.ReturnKeepsCapIff`); a run keeps
  the cap throughout exactly when no booking returns in it while the code is full (`PromoCap.CapHeldIff`); and
  every return while it is full puts the bookings above the limit, at once or with the next commit
  (`PromoCap.FullReturnExceeds`, and a whole run in `PromoCap.ReturnExceedsCap`).
- **Failed approvals.** A cancellation that fails inside an approval stays stored under the request's key. Every
  retry replays that failure, so the request can never be decided afterwards (`Approval.FailureIsFinal`); any
  reviewer who approves a new request while the provider refuses gets there (`Approval.FailedApprovalIsStuck`).
  The committed reviewer can finish after a crash exactly when no failure is stored (`Approval.ReviewerCanFinish`).
- **Order previews.** The offer for one room of an order is the least of three amounts, but when the payment
  split is clear neither the room's price nor the order's balance is ever the least
  (`RefundEligibility.OrderOfferIsOwnPayment`).
- **A failed checkout.** When the payment provider cannot open a checkout, also because it is not configured, a
  single room is rolled back without a trace (`FailedCheckout.UnpaidRoomIsRolledBack`,
  `FailedCheckout.FailedRoomIsInvisible`). An order reports the same error but stays committed with all its rows and
  holds, exactly when the checkout is all it lacks (`FailedCheckout.OrderErrorWithHoldIff`); such an order can sell
  out a night (`FailedCheckout.FailedOrderSellsOut`). Its units come back when the hold expires, however much later
  (`FailedCheckout.OrderHoldReturned`).
- **Recategorised room types.** Activation refuses rules that contradict each other, but putting a room type into
  a category is not checked and can bring two active rules together (`RestrictionHistory.MovingATypeReopens`).
  Rules stay free of contradictions exactly when no such change reopens one (`RestrictionHistory.HistorySoundIff`).

## Model

| member | source | states |
|---|---|---|
| Restrictions.EvaluateRestrictions | apps/api/src/booking/inventory-restriction-rules.ts:100-167 | the sampled evaluation refines the walk of every night (same closing night, same applied ids, a contradiction met iff the full walk meets one before it); the days tested are the sampled nights up to the first that closes, at most 7(1+2k) for k stop-sell rules |
| Restrictions.VisitedWalkRefines | apps/api/src/booking/inventory-restriction-rules.ts:154-160 | walking any set of nights whose omissions repeat an earlier night gives the outcome of walking all of them |
| Restrictions.SamplingRepeats | apps/api/src/booking/inventory-restriction-rules.ts:141-153 | every night the sample skips repeats the choice of an earlier night, for any rules and any stay length |
| Restrictions.ChooseMeaning | apps/api/src/booking/inventory-restriction-rules.ts:108-122 | the choice is a contradiction iff two highest-priority rules disagree, nothing iff none applies, else the value all winners share |
| Restrictions.WinnerIds | apps/api/src/booking/inventory-restriction-rules.ts:120-121 | the ids recorded as applied are exactly those of the winning rules |
| Restrictions.StopSellVerdict | apps/api/src/booking/inventory-restriction-rules.ts:154-160 | STOP_SELL names the earliest night whose winner is closed, and is absent iff no night is; earlier contradictions are reported iff there are any |
| Restrictions.AcceptsUnrestricted | apps/api/src/booking/inventory-restriction-rules.ts:123-167 | no error is reported iff no restriction decides against the stay on any of its nights, sampled or not |
| RestrictionConflicts.RestrictionConflictsFor | apps/api/src/booking/inventory-restriction-rules.ts:67-97 | reports, per other rule, the first day from today on, without bound, on which the two contradict |
| RestrictionConflicts.LookaheadComplete | apps/api/src/booking/inventory-restriction-rules.ts:83-95 | a pair is reported iff some day of the unbounded calendar has both schedules applying with different values at equal priority |
| RestrictionConflicts.SameTypeOverlaps | apps/api/src/booking/inventory-restriction-rules.ts:50-65 | scopes of any two rules that match one room type overlap |
| RestrictionConflicts.NoConflictReported | apps/api/src/booking/inventory-restriction-rules.ts:99-122 | rules of a room type that passed the check pairwise never make the evaluator report a priority conflict, for any stay from that day on |
| RestrictionHistory.RestrictionDesk.Mutate | apps/api/src/tenancy/inventory-restrictions.service.ts:267-355 | one request (create, edit, activate, pause, archive, duplicate, delete) writes its row, replacing by id, or is refused for the first reason that applies and changes nothing |
| RestrictionHistory.RequestKeepsClear | apps/api/src/tenancy/inventory-restrictions.service.ts:297-329 | every request keeps ids unique and live rules free of clashes from its day on, because activation and every change of a live rule's terms run the check |
| RestrictionHistory.CatalogChangeKeepsClearIff | apps/api/src/tenancy/room-types.service.ts:263-274 | a change of the room types keeps the rules clear iff no new or recategorised type brings a category rule and a room-type rule together that clash |
| RestrictionHistory.MovingATypeReopens | apps/api/src/tenancy/room-types.service.ts:271-271 | two rules created and activated through the check, which refused nothing, contradict each other for a stay on a room type once the type is put into the category |
| RestrictionHistory.HistorySoundIff | apps/api/src/tenancy/inventory-restrictions.service.ts:253-355 | over any history of requests and catalogue changes the rules are clear after every event iff every catalogue change, at its time, reopens nothing |
| RestrictionHistory.KeptCategoriesAreSafe | apps/api/src/tenancy/room-categories.service.ts:134-143 | a catalogue that only loses room types and categories, as when a category is removed, reopens nothing |
| RestrictionHistory.HistoryNeverContradicts | apps/api/src/tenancy/inventory-restrictions.repository.ts:22-37 | after any such history no stay from that day on, on any room type and with the rules loaded for it, meets a priority conflict |
| BookingRules.EvaluateBookingRules | apps/api/src/booking/booking-rules.ts:58-184 | each violation is listed iff its own reason holds, a restriction is listed iff some night is restricted (every night, not the sample), the request is valid iff it is acceptable, and the stay limits returned are those in force |
| BookingRules.OverlapSharesANight | apps/api/src/booking/booking-rules.ts:33-38 | ranges overlap iff they share a night |
| Lanes.PackLanes | apps/web/lib/calendar-board.ts:77-92 | every stay is placed once, no lane holds two stays sharing a night, every lane is used |
| Lanes.LaneCount | apps/web/lib/calendar-board.ts:77-92 | for any list the number of lanes is the busiest night's count, plus one iff an empty stay starts strictly inside that many stays |
| Lanes.PeakOf | apps/web/lib/calendar-board.ts:73-92 | every list of stays has a busiest night, whose count this is |
| Lanes.LanesAreMinimal | apps/web/lib/calendar-board.ts:73-92 | for stays of at least one night the count is the peak, and no separating assignment uses fewer |
| Lanes.EmptyStayAddsLane | apps/web/lib/calendar-board.ts:85-89 | a concrete pair of stays, one of them empty, that takes one lane more than its peak |
| Lanes.BarInWindow | apps/web/lib/calendar-board.ts:39-57 | a bar lies inside the window and is marked cut exactly on the sides the stay sticks out of |
| Lanes.BarShownIffTouching | apps/web/lib/calendar-board.ts:39-57 | a stay of at least one night is drawn iff it touches the window |
| Lanes.LaneBarsDisjoint | apps/web/lib/calendar-board.ts:39-92 | two bars on one lane never overlap |
| PricingEvaluator.EvaluatePricing | apps/api/src/booking/pricing-evaluator.ts:195-417 | the pricing loops compute the specification `Evaluate`, which the pricing theorems are about |
| PricingProperties.ValidResultExact | apps/api/src/booking/pricing-evaluator.ts:265-417 | a valid result has one entry per consecutive night, each the exact sum of its components and within the limit, and a total that is the exact sum of the nights |
| PricingProperties.PerStayChargedOnce | apps/api/src/booking/pricing-evaluator.ts:351-380 | a per-stay charge is on the earliest night it applies to, exactly once, and on no other night |
| PricingOrder.OrderDoesNotMatter | apps/api/src/booking/pricing-evaluator.ts:163-193 | listing the same facts in any order (unique ids and keys) changes neither validity nor errors, total or any night's amount |
| PricingOrder.ForemostUnpreceded | apps/api/src/booking/pricing-evaluator.ts:177-190 | the base price that is chosen exists iff any applies, and none precedes it in the sort order |
| PricingMonotone.RaisingNeverLowers | apps/api/src/booking/pricing-evaluator.ts:290-404 | with no negative percentage, raising any set of base, daily or room prices never lowers a valid total |
| PricingMonotone.PercentageMonotoneIff | apps/api/src/booking/pricing-evaluator.ts:319-338 | a percentage step keeps the order of all amounts iff it takes off at most the whole price |
| Money.MinorOfDecimal | apps/api/src/booking/pricing-evaluator.ts:104-115 | the bounded parser undoes the printer exactly up to 999999999999 and refuses what is printed beyond |
| Money.MinorBounded | apps/api/src/booking/pricing-evaluator.ts:104-110 | every text the bounded parser accepts is within that limit |
| Money.ToMinorOfDecimal | apps/api/src/booking/promo-code.service.ts:49-54 | the lenient parser reads every printed amount back |
| Money.RoundMinorNearest | apps/api/src/booking/pricing-evaluator.ts:116-119 | rounding is within half a unit of the exact quotient, and odd |
| Money.RoundMinorMonotone | apps/api/src/booking/pricing-evaluator.ts:116-119 | rounding keeps the order of amounts |
| Promo.DiscountNights | apps/api/src/booking/promo-code.service.ts:73-86 | the loop computes the distribution the lemmas are about |
| Promo.DistributionExact | apps/api/src/booking/promo-code.service.ts:69-86 | every night ends between zero and its old price, and the nights sum to the discounted total plus exactly what the last night cannot give |
| Promo.NightsAddUpIff | apps/api/src/booking/promo-code.service.ts:69-86 | the nights add up to the discounted total iff the last night can absorb the remainder |
| Promo.ExcessBounded | apps/api/src/booking/promo-code.service.ts:78-85 | the excess is zero for up to two nights and at most n-2 otherwise |
| Promo.ExcessReached | apps/api/src/booking/promo-code.service.ts:78-85 | for every number of nights there are prices and a discount that reach that bound |
| Promo.PercentDiscountRounded | apps/api/src/booking/promo-code.service.ts:63-67 | a percentage discount is the half-up rounded share, capped at the price |
| Promo.AppliedDiscount | apps/api/src/booking/promo-code.service.ts:127-163 | an applied code takes off more than nothing and at most the price |
| Quote.ValidQuoteAccepted | apps/api/src/booking/quote.service.ts:769-783 | the printed nights of a valid pricing result are accepted, read back exactly, and sum to the total that is read back |
| Quote.PromoQuoteAccepted | apps/api/src/booking/quote.service.ts:264-288 | after a promo code the nights are still accepted, none is dearer, and total and sum are those the discount leaves |
| Inventory.ReleaseNeverFails | apps/api/src/tenancy/availability.service.ts:796-804 | between transactions a room-less booking that holds its nights can always release them, so the release never throws |
| Hotel.Hotel.CreateBooking | apps/api/src/booking/local-pms.provider.ts:279-658 | one booking goes from its draft row through the allowed statuses to the state `Created` gives, with row, stock and rollback in every outcome, and keeps the ledger sound |
| Hotel.Hotel.CreateOrder | apps/api/src/booking/multi-room-booking.service.ts:88-286 | a multi-room order commits what `Ordered` gives or nothing, and keeps the ledger sound |
| Hotel.Hotel.ReserveAll | apps/api/src/booking/multi-room-booking.service.ts:369-408 | all targets are reserved iff each could be on its own, and then exactly the order's claims are taken from the stock |
| Hotel.Hotel.ContinueAfterPayment | apps/api/src/booking/local-pms.provider.ts:971-1112 | a payment confirms the booking, or every child of its order that waits for payment, and nothing else |
| Hotel.Hotel.ExpirePaymentPending | apps/api/src/booking/local-pms.provider.ts:1114-1181 | an overdue hold expires with its whole order's waiting children, and every unit they held is given back |
| Hotel.Hotel.CancelBooking | apps/api/src/booking/local-pms.provider.ts:1183-1351 | one room or a whole order is cancelled as `BookingCancelled` says, and a sound ledger stays sound |
| Hotel.Hotel.CancelMultiRoomOrder | apps/api/src/booking/local-pms.provider.ts:1359-1494 | the validating, cancelling and summing loops compute `OrderCancelled` |
| Hotel.Hotel.MoveBookingRoom | apps/api/src/booking/local-pms.provider.ts:701-783 | a move takes the new room only when it is free for the whole stay and gives back the unit of a room-less booking |
| Hotel.Hotel.EditStock | apps/api/src/tenancy/inventory-stock.service.ts:190-287 | all cells are written from the stock before the edit or none is, and counts stay as they were |
| HotelInvariant.InventoryIsConserved | apps/api/src/booking/local-pms.provider.ts:510-544 | after any history: booked units per type and night equal the room-less bookings waiting for payment or confirmed that cover it, never above stock; no room has two live stays on a night; no booking rests in an intermediate status |
| HotelInvariant.OrderHoldsAllOrNone | apps/api/src/booking/multi-room-booking.service.ts:369-408 | an order writes nothing at all, or books every room and raises each type's count by exactly its rooms on every night |
| HotelInvariant.StockEditKeepsSound | apps/api/src/tenancy/inventory-stock.service.ts:207-227 | stock can be edited down to the units sold and no further, so no edit oversells |
| RowHistory.HistoryEvolves | apps/api/src/booking/local-pms.provider.ts:971-1351 | over any history no row is deleted, a cancelled one stays cancelled, and one that waits for payment is exactly what it was |
| FailedCheckout.UnpaidRoomIsRolledBack | apps/api/src/booking/local-pms.provider.ts:545-673 | one room is booked iff it is accepted, quoted and claimable and, when paid online, still free with an open checkout; any other reply leaves the stock alone, and one after the claim changes nothing at all |
| FailedCheckout.FailedRoomIsInvisible | apps/api/src/booking/local-pms.provider.ts:583-583 | any history ends as it would without a room whose checkout failed |
| FailedCheckout.OrderErrorWithHoldIff | apps/api/src/booking/multi-room-booking.service.ts:226-254 | an order is committed with an error iff it is accepted, claimable, new, paid online, still free and its checkout failed; it is then committed exactly as a successful one, and any other error changes nothing |
| FailedCheckout.FailedOrderSellsOut | apps/api/src/booking/multi-room-booking.service.ts:247-254 | a new hotel with two rooms, and an order of both whose checkout fails: an error, and the night is sold out |
| FailedCheckout.ExpiryExact | apps/api/src/booking/local-pms.provider.ts:1114-1181 | in any sound state an expiry closes exactly the booking, or the rooms of its order, that wait for payment, and lowers each count by exactly the units these held |
| FailedCheckout.RoomHoldReturned | apps/api/src/booking/local-pms.provider.ts:1114-1181 | after any events that leave an online room waiting, its expiry gives back its unit on each of its nights and changes no other row |
| FailedCheckout.OrderHoldReturned | apps/api/src/booking/local-pms.provider.ts:1114-1181 | after any events that leave an order's rooms waiting, the expiry through any of them lowers each type's count on each night by exactly the order's rooms and changes no other row |
| FailedCheckout.ExpiryUndoesOrder | apps/api/src/booking/local-pms.provider.ts:1114-1181 | expired at once, an online order leaves the stock exactly as it was before it |
| CancellationModel.OrderCancellationExact | apps/api/src/booking/local-pms.provider.ts:1384-1482 | a failed check changes nothing and calls no provider; otherwise exactly the children not declined are cancelled, each declined one keeps its row and gets one review item, and one refund is asked for, the exact sum of the free automatic ones and at most the order's total |
| CancellationModel.OrderPassesIff | apps/api/src/booking/local-pms.provider.ts:1391-1419 | an order passes its checks iff each child passes on its own and the free ones share one currency |
| CancellationModel.PartialFailureIff | apps/api/src/booking/local-pms.provider.ts:1425-1449 | the caller hears of a partial failure iff the provider declined some child |
| OrderRefunds.RefundWithinCheckout | apps/api/src/booking/multi-room-booking.service.ts:564-571 | whatever happens in between, an order's rows still total its checkout amount, and its cancellation never asks back more |
| RefundHistory.OrderRefundedOnce | apps/api/src/booking/local-pms.provider.ts:1183-1482 | over any history before and after an order is placed, part of its charge is asked back once at most and for at most its checkout amount; a room's whole charge is asked back exactly when staff cancel that room alone, its policy refunds it and the refund is not skipped |
| RefundHistory.AllRefundsBounded | apps/api/src/booking/booking-requests.service.ts:360-370 | when every cancellation of a single room skips the automatic refund, as the review of requests does, all refunds asked for an order's rooms are one partial refund of at most its checkout amount |
| RefundEligibility.OrderBalance | apps/api/src/booking/booking-requests.service.ts:197-239 | the balance is the unrefunded payments of the order, or a refusal when the split is unclear |
| RefundEligibility.PreviewWithinPayment | apps/api/src/booking/booking-requests.service.ts:81-88 | a preview offers no more than is left of the payment, and all of it when cancelling is free |
| RefundEligibility.OrderOfferIsOwnPayment | apps/api/src/booking/booking-requests.service.ts:185-191 | when the split is clear a free room is offered exactly its own unrefunded payment and any other nothing |
| RefundEligibility.OffersWithinBalance | apps/api/src/booking/booking-requests.service.ts:185-239 | all offers together never exceed the order's balance, and equal it iff every room with money left is free |
| Approval.DecisionsMatchEffects | apps/api/src/booking/booking-requests.service.ts:480-597 | over every interleaving with crashes: a rejected or withdrawn request never had its cancellation or refund, an approved one had its cancellation once, under its reviewer's committed note; neither effect happens twice |
| Approval.IntentIsFinal | apps/api/src/booking/booking-requests.service.ts:532-562 | a committed actor and note never change, only that actor with that note can close the request, as approved, and a decided request never changes |
| Approval.FailureIsFinal | apps/api/src/booking/booking-requests.service.ts:565-578 | once a failed cancellation is stored the request stays pending in every continuation |
| Approval.FailedApprovalIsStuck | apps/api/src/booking/booking-requests.service.ts:563-578 | approving a new request while the provider refuses stores the failure, and the request is pending in every continuation |
| Approval.ReviewerCanFinish | apps/api/src/booking/booking-requests.service.ts:531-580 | after any crash the committed reviewer can finish iff no failed cancellation is stored |
| Approval.ReviewDesk.Decide | apps/api/src/booking/booking-requests.service.ts:480-597 | an uninterrupted decision commits exactly what the step system commits |
| Approval.DecisionRuns | apps/api/src/booking/booking-requests.service.ts:360-396 | running the steps of one decision through the system gives what `Committed` describes |
| Idempotency.Provider.WithIdempotency | apps/api/src/booking/local-pms.provider.ts:1604-1665 | one keyed attempt does what `Perform` says to state, stored operation and answer |
| Idempotency.RunIsReplay | apps/api/src/booking/local-pms.provider.ts:1604-1665 | the state after any history is that of the committed attempts alone, each applied once, no key twice |
| Idempotency.RetriesAreInvisible | apps/api/src/booking/local-pms.provider.ts:1617-1647 | removing every attempt that did not commit leaves the same state and the same stored results |
| Idempotency.RetryReturnsFirstResult | apps/api/src/booking/multi-room-booking.service.ts:498-543 | whatever happens in between, the same request gets the first result back and the key with another request is refused; neither touches the state |
| Idempotency.NeverInProgress | apps/api/src/booking/local-pms.provider.ts:1645-1648 | no caller is ever told that an operation is in progress |
| StableJson.CanonicalIff | apps/api/src/booking/local-pms.provider.ts:1673-1681 | two values print alike iff they are equal once a one-item array of `undefined` is read as the empty one |
| StableJson.CanonicalForm | apps/api/src/booking/local-pms.provider.ts:1673-1681 | without such arrays they print alike iff they are equal up to key order |
| StableJson.LoneUndefinedCollides | apps/api/src/booking/local-pms.provider.ts:1675-1675 | the concrete collision |
| StableJson.RequestTextIdentifies | apps/api/src/booking/local-pms.provider.ts:1667-1671 | requests have the same text iff they agree on every field but the key |
| PromoCap.CapOverRuns | apps/api/src/booking/promo-code.service.ts:170-185 | over every interleaving, uses exceed the limit by no more than the bookings that returned from PMS_REJECTED |
| PromoCap.ReturnKeepsCapIff | apps/api/src/booking/booking-state-machine.ts:54-54 | a booking that returns from PMS_REJECTED keeps the cap iff uses and promised uses were below the limit before it |
| PromoCap.CapHeldIff | apps/api/src/booking/promo-code.service.ts:165-185 | over any interleaving the cap, promised uses included, holds after every step iff no booking returns while the code is full |
| PromoCap.CapNeverExceeded | apps/api/src/booking/promo-code.service.ts:165-185 | with no return while the code is full no interleaving exceeds the limit |
| PromoCap.FullReturnExceeds | apps/api/src/booking/booking-state-machine.ts:54-54 | after every return while the code is full the bookings exceed the limit, at once or after one commit |
| PromoCap.ReturnExceedsCap | apps/api/src/booking/booking-state-machine.ts:54-54 | a run with such a return that ends above the limit |
| BookingStatus.OnlyWayBack | apps/api/src/booking/booking-state-machine.ts:4-58 | PMS_REJECTED to MANUAL_REVIEW is the only change from a status that is not a use back to one that is |
| BookingStatus.HistoryNeverRepeats | apps/api/src/booking/booking-state-machine.ts:4-72 | no booking returns to a status, and no status history is longer than eleven |
| InventoryLocks.LockInventory | apps/api/src/booking/multi-room-booking.service.ts:354-367 | rooms, then types, each sorted, each behind the property row |
| InventoryLocks.OrderClimbs | apps/api/src/booking/multi-room-booking.service.ts:354-408 | every acquisition of an order is of a lock it holds or of one above all it holds, through locking and reserving |
| InventoryLocks.NewLocksIncrease | apps/api/src/booking/multi-room-booking.service.ts:354-367 | the locks an order takes form a strictly increasing sequence |
| InventoryLocks.SomeOrderCanStep | apps/api/src/tenancy/availability.service.ts:700-736 | while any of any number of concurrent orders has not ended, some order can step |
| InventoryLocks.ConcurrentOrdersEnd | apps/api/src/booking/multi-room-booking.service.ts:354-408 | any number of orders, built from their rooms and started without a lock, stepped in any order the locks allow: never stuck, and all ended exactly when every step has been made |
| InventoryLocks.OrdersFinish | apps/api/src/tenancy/availability.service.ts:700-736 | no run is stuck before all orders have ended, and every step uses up one of finitely many |
| Search.BuildBookingSearch | apps/api/src/booking/booking-search.ts:177-229 | the texts pushed, each in parentheses and joined by AND, and the parameters pushed beside them, are those of the built search |
| Search.CompiledSearchMeansFilters | apps/api/src/booking/booking-search.ts:177-229 | after the caller's own parameters, the WHERE text parses, what it parses to is true of a row iff every requested filter holds (NULLs included), and every `$` numeral names one of its own parameters |
| SearchClauses.ClauseReads | apps/api/src/booking/booking-search.ts:160-212 | each fragment reads as the condition it is meant to be, wherever a complete operand may stand |
| SqlText.JoinedReads | apps/api/src/booking/booking-search.ts:225-225 | clauses in parentheses joined by AND parse to the conjunction of the clauses, whatever operators they contain |
| SqlText.ParenthesesMean | apps/api/src/booking/booking-search.ts:225-225 | in parentheses any condition is one operand |
| LikePatterns.PatternMeansContains | apps/api/src/booking/booking-search.ts:186-187 | the escaped pattern LIKE-matches a text iff the text contains the raw search |
| LikePatterns.ILikeMeansContains | apps/api/src/booking/booking-search.ts:186-193 | under any folding that keeps special characters apart, also one that changes lengths, ILIKE matches iff the folded text contains the folded search |
| Search.StayFilterMeansANight | apps/api/src/booking/booking-search.ts:208-211 | the stay filter keeps a stay iff it has a night in the requested range |

## Left out

- Dates as text: years beyond four digits, invalid dates and time zones; `restrictionLifecycle` and `propertyClock` give inputs, not results.
- Saved decimal amounts of pricing facts arrive already parsed: an amount is the result of `minor`, or "unreadable", which stops the evaluation as the exception does.
- BookingRules.EvaluateBookingRules: does not model the texts of the messages; a violation is its code.
- RestrictionHistory.RestrictionDesk.Mutate: does not model versions, idempotency receipts and the validation of the fields, which refuse a request before anything else, nor a catalogue that changes between the check and the commit.
- PricingEvaluator.EvaluatePricing: does not model component names, versions, display texts and categories, nor the date inside a daily price's component id; messages of errors are codes.
- PricingOrder.OrderDoesNotMatter: does not claim equal component lists, because the list order of charges is visible in them; amounts, totals and errors are equal.
- `localeCompare` is taken as the order of code units, and lone surrogates in strings are not modelled.
- Search.BuildBookingSearch: does not model the spelling of words and names, because its text is a sequence of tokens; only `$` numerals are spelled out. Ordering, paging and the parsing of the raw query are left out.
- LikePatterns.ILikeMeansContains: does not model foldings that depend on the characters around one.
- Lanes.BarInWindow: uses real numbers, so floating-point rounding of the two divisions is not modelled.
- StableJson.CanonicalIff: numbers are their printed text, so it does not model how a number is printed; a request hash is the text itself.
- Idempotency.Provider.WithIdempotency: does not model two transactions inserting one key at the same time, because the unique index makes the second wait for the first to end.
- The order service compares requests by `JSON.stringify`, which is sensitive to key order; the model compares request texts.
- Hotel.Hotel.CreateBooking: does not model Clock-connected hotels, guests, promo codes and payments rows; a failed catalogue, guest or promo check is one refused outcome. The idempotency wrapper is `Idempotency`.
- The null-provider branches of both booking services: the payment provider registry has a provider for each of the two online methods, so neither branch is reached.
- Hotel.Hotel.CreateOrder: does not model the reservation attached for a Clock-connected hotel and the rows of payment sessions.
- Hotel.Hotel.ContinueAfterPayment: does not model the statuses only a Clock connection produces, so conservation is stated for hotels that keep their own stock.
- Hotel.Hotel.CancelBooking: a gateway refund is the call that is made and whether it succeeds; money movement behind it is not part of this model. It also covers Clock-connected hotels, which have no stock rows.
- Hotel.Hotel.EditStock: does not model previews, tokens and receipts.
- Stay amendments, availability blocks and imports of bookings, which change stock or rows in other services.
- InventoryLocks.SomeOrderCanStep: does not model automatic room assignment, which locks a type before its rooms, nor two ids whose lock keys collide; a deadlock there is not excluded by this result.
- PromoCap.CapNeverExceeded: does not model lowering a limit, which can put past uses above it at once.
- Approval.DecisionsMatchEffects: takes the booking lock as held until the decision's transaction ends, and a provider or refund call as one atomic step that commits a stored result or nothing; a decision that outlives its transaction's timeout is not modelled.
- `submit`, `needsApproval`, direct staff cancellation and the guest's own request form: checks in front of the protocol that add only easy members.
- HMAC tokens, hashing, sessions, rate limits, access control, audit, notifications, mail, SQL execution and React components.
