# Verification of the ordering backend

Dafny proofs about the parts of the delivery backend that change state under contention: stock
reservation and restoration, rider dispatch, checkout submission, the cart, the in-memory rate
limiter, and the session cache. `dafny verify dfyconfig.toml` checks everything.

## What is modelled

**Stock** (`Lots`, `Inventory`, `Reservation`, `Restoration`, `Alerts`, `InventoryStore`,
`Conservation`, `LotCreation`). Menu items, variant combinations and options carry the same stock
columns, so one table indexed by the kind of resource holds them; lots are a second table.
`InventoryDatabase` has the conditional row updates and the loops of the lifecycle service as
methods on those tables, and each is proved against a closed form computed from summed demand alone.
A reservation that fails puts the saved tables back, as the transaction does. Main results: a
reservation succeeds exactly when every touched row and its lots cover the summed demand, whatever
the order of the lines (`ReservationFollowsDemand`, `LineOrderDoesNotMatter`); lots are used first
expiry first out, on the lots' own dates (`LotsAreUsedByTheirDates`); restoring what a reservation
stored gives back every row and every lot exactly (`RestorationUndoesReservation`); over any run of
reservations, restorations and adjustments stock is initial plus adjustments minus what outstanding
orders hold (`EveryRunConserves`); with new lots and merchants' updates as well, an item stays equal
to its lots' total exactly unless an order comes back that was placed before the item had lots, or
an update writes a stock other than that total (`BalanceIsKeptExactly`, `EveryRunStaysBalanced`);
alerts emitted step by step are the difference of the two endpoints.

**Dispatch** (`Dispatch`, `DispatchDatabase`, `OrderDelivery`, `DispatchAttempts`,
`AttemptOwnership`, `RiderAvailability`, `OrderCourse`, `RiderExclusivity`, `StaleDecisions`).
Orders, delivery rows and the attempt log are three tables; every handler is one atomic step,
written once as a function and once as the row-by-row method that leaves exactly what the function
says. Customer and administrator cancellations, status overrides and failed payments are events too.
The dispatch handlers are also taken apart into taking an order up, begin, lock, count, write,
commit and abort, interleaved with themselves and with every other event, for an arbitrary hash
function behind the advisory lock; `StaleDecisions` splits the requests that change a status into
the read they decide on and the write, interleaved with all of that. Main results: an order whose
status was not overridden agrees with its delivery, milestones included, exactly when it was never
cancelled with a rider on the delivery (`EveryRunAgreesExactly`); releases of an order's stock are
counted by its refusals (`StockIsReleasedOnce`); committed assignments of an order go to distinct
riders, never at three failures, and re-queues are bounded; no rider ever has two active deliveries
(`NoDoubleBooking`), and one whose last delivery ended is assigned the next order
(`FreeRidersAreAssigned`); who may take an order from which status to which, and its whole course to
delivery (`TheCourseEndsDelivered`); a refused order stays refused exactly unless a transaction that
was under way commits or the status is overridden (`RefusalSurvivesExactly`, `RevivalWasUnderWay`);
with overlapping requests, releases are counted exactly, and an order is released twice or revived
only by what had read it before the refusal (`ReleasesAreAccountedFor`, `HarmWasDecidedBefore`,
`ReleasedOnceUnlessOverlapped`).

**Checkout** (`CheckoutPricing`, `CheckoutSubmission`, `ExactlyOnce`, `CartReuse`,
`CheckoutDatabase`, `VariantSignature`, `OrderCartItems`, `OptionSelection`, `CustomerCart`).
Submissions interleave between their reads, row locks, inserts and commits. Main results: one order
per idempotency key, deducted once, with one payment, and losers change nothing; a cart is ordered
twice only by submissions under different keys that overlap; three batched queries give each line
what looking it up alone would, and ask of the stock exactly what the cart holds
(`DemandIsTheCart`); two lists of options have one signature exactly when they are the same set; the
cart's and the checkout's separately written checks accept the same selections; line totals, cart
totals, order total and payment amount follow from quantities and prices.

**Limiter and session cache** (`FallbackLimiter`, `SessionCache`). Main results: the map stays
bounded, the sweep is invisible, and a half-open interval of one window's length passes fewer than
twice the limit; a bearer let in held an unrevoked, unexpired session within the last five minutes
(plus the duration of one validation) even if every invalidation is lost. A revocation updates the
row and clears the cache side by side; after the update a bearer of the session is let in by some
request at a given time exactly when a validation that read the table before it is still under way,
or filled the entry that stands and is still in time (`RevocationIsEffectiveExactly`).

## Where the code does less than one might expect

Each of these is stated with its exact condition or a run that shows it:

- A cancellation with a rider on the delivery, by the customer while the merchant prepares or by an
  administrator, leaves that rider there; unless the status is overridden the rider is never assigned
  again (`CancellationKeepsAgreementExactly`, `StrandedRiderIsNeverAssigned`,
  `LateCancellationIsReachable`).
- A rider who cancels before accepting leaves the offer open, and its timeout later takes the order
  from the next rider (`CancellationKeepsOffersExactly`, `StaleTimeoutHitsAnotherRider`,
  `StaleTimeoutIsReachable`).
- The assignment transaction does not read the order's status again, so an order cancelled while it
  is under way, its stock released, comes back as assigned (`RefusalSurvivesExactly`,
  `CommitRevivesRefusedOrder`).
- A failed assignment that a rider's availability triggered queues the order again even where that
  rider had been tried (`RiderTriggeredRetryMayRepeatARider`, `RepeatedRetryIsReachable`).
- Requests that change an order's status decide on what they read before their transaction, so a
  customer's cancellation that overlaps the merchant timeout gives the stock back twice, and one that
  overlaps the merchant's acceptance leaves an accepted order whose stock is back
  (`OverlappingCancellationsReleaseTwice`, `OverlappingAcceptanceRevives`).
- Cancelling an order placed before its item had lots leaves item and lots apart
  (`BalanceIsKeptExactly`, `UnevenReturnIsReachable`), and so does updating a lot-using item with a
  stock of its own, which the adjustment route refuses but the update route does not
  (`OverwriteIsReachable`).
- A repeated submission is replayed only while its cart is open, so the same request sent after its
  commit is refused, and one cart submitted under two overlapping keys is ordered twice
  (`RepeatIsReplayedExactly`, `RepeatsOfBothKinds`, `TwoOrdersOfACartOverlap`,
  `TrackedCartIsOrderedTwice`).
- Order total and payment amount part for a pickup priced with an address; the context service never
  builds one (`AmountsAgreeExactly`).
- Ids containing the separators `|` or `:` would make signatures or index keys collide
  (`SeparatorInAnIdCollides`, `ColonInAnIdMixesItems`).
- A revocation can be outlived in three ways: the invalidation is lost, a validation is under way over
  both halves, or a whole validation comes between an early invalidation and the row update
  (`LostInvalidationIsOutlived`, `ValidationUnderWayRefillsTheCache`,
  `ValidationBetweenTheHalvesIsOutlived`).
- An alert quotes the stock at the moment its level was reached; a further decrement outdates it
  exactly when the level does not worsen again (`QuoteStaysCurrentExactly`).

Two remarks on the code that the results take into account: the limiter admits the first request of a
window even where the limit is below one, so such a limit counts as one; and the comment in
`findEligibleRiders` (src/modules/riders/repositories/riders.repository.ts:39-68) says riders on an
active delivery are excluded, but its status list omits ACCEPTED. The assignment transaction's own
count includes it, so the candidate lists are arbitrary here.

## Assumptions

Prices are exact (`real`). Ids are compared lexicographically where the code uses `localeCompare`
and `sort`. Clock readings, candidate riders, new ids and order codes are parameters, and so is
whether an assignment transaction or a cache operation goes through. Order lines have distinct keys
(cart item ids). Row locks are held from the first write of a transaction to its end. The clock never
runs backwards where time matters.

## Model

| member | source | states |
|---|---|---|
| `Lots.ComparatorIsStrictTotalOrder` | src/modules/menus/services/menu-inventory-lifecycle.service.ts:317-323 | the lot comparator (expiry, nulls last; received; created; id) is antisymmetric, transitive and total, so sorting is determined |
| `Lots.SoonerIsDueBefore` | src/modules/menus/services/menu-inventory-lifecycle.service.ts:315-323 | the comparator is the order of the columns: an expiry date before a later one and before none; on equal dates the earlier received, then the earlier created, then by id |
| `Lots.OrderIsUnique` | src/modules/menus/services/menu-inventory-lifecycle.service.ts:315-323 | two orderings of the same lots by the comparator are the same sequence |
| `Lots.OrderIgnoresQuantities` | src/modules/menus/services/menu-inventory-lifecycle.service.ts:315-323 | taking from lots never changes the order in which they are taken |
| `Lots.OnlyAvailableMatters` | src/modules/menus/services/menu-inventory-lifecycle.service.ts:315-316 | filtering out empty lots changes neither what is available nor what each lot gives |
| `Lots.AllocationsRecordTheWalk` | src/modules/menus/services/menu-inventory-lifecycle.service.ts:347-381 | the recorded allocations hold, lot by lot, exactly what was taken |
| `Lots.AllocationIsFirstExpiryFirstOut` | src/modules/menus/services/menu-inventory-lifecycle.service.ts:344-383 | a servable quantity is allocated exactly, from a prefix of the order, all lots but the last drained |
| `Lots.EarlierLotsAreUsedUp` | src/modules/menus/services/menu-inventory-lifecycle.service.ts:306-384 | any available lot sooner than one used has been used up and recorded in full |
| `Lots.WalksCompose` | src/modules/menus/services/menu-inventory-lifecycle.service.ts:347-381 | allocating q1 and then q2 takes from each lot what allocating q1+q2 at once takes |
| `Lots.DrainingComposes` | src/modules/menus/services/menu-inventory-lifecycle.service.ts:347-381 | draining q1 and then q2 leaves the lot table that draining q1+q2 leaves |
| `Lots.DrainingReducesAvailable` | src/modules/menus/services/menu-inventory-lifecycle.service.ts:324-329 | a served quantity leaves exactly that much less available in the lots |
| `Inventory.DemandIgnoresLineOrder` | src/modules/menus/services/menu-inventory-lifecycle.service.ts:84-203 | summed demand per resource depends only on the multiset of lines |
| `Reservation.ReservationFollowsDemand` | src/modules/menus/services/menu-inventory-lifecycle.service.ts:84-203 | a reservation succeeds exactly when each touched row is tracked and covers the summed demand (and its lots do); then every row and lot is the start less that demand |
| `Reservation.LineOrderDoesNotMatter` | src/modules/menus/services/menu-inventory-lifecycle.service.ts:84-203 | success and final stock are the same for every order of the lines |
| `Reservation.LotsAreUsedByTheirDates` | src/modules/menus/services/menu-inventory-lifecycle.service.ts:315-383 | after any reservation a lot of an item has given something only if every lot of it with an earlier expiry date (or with any, if it has none), or on equal dates received or created earlier, is empty |
| `Reservation.ApplyAllComposes` | src/modules/menus/services/menu-inventory-lifecycle.service.ts:84-203 | reserving two lists one after the other is reserving them together |
| `InventoryStore.InventoryDatabase.constructor` | src/modules/menus/repositories/menus.repository.ts:161-183 | opens the database on given stock and lot tables |
| `InventoryStore.InventoryDatabase.DecrementTracked` | src/modules/menus/repositories/menus.repository.ts:161-183 | the decrement happens exactly when the row is tracked, not null and large enough, else nothing changes |
| `InventoryStore.InventoryDatabase.IncrementStock` | src/modules/menus/repositories/menus.repository.ts:223-233 | adds to a row counting null as zero; absent rows are left alone |
| `InventoryStore.InventoryDatabase.AdjustTracked` | src/modules/menus/repositories/menus.repository.ts:185-221 | a merchant delta is applied under its condition or refused with no change |
| `InventoryStore.InventoryDatabase.DecrementLot` | src/modules/menus/repositories/menus.repository.ts:724-744 | a lot gives a quantity exactly when it has it left |
| `InventoryStore.InventoryDatabase.IncrementLotRemaining` | src/modules/menus/repositories/menus.repository.ts:746-756 | puts a quantity back into a lot's remaining, not its received |
| `InventoryStore.InventoryDatabase.AdjustLot` | src/modules/menus/repositories/menus.repository.ts:682-722 | a lot delta moves remaining, and received too when positive, or is refused |
| `InventoryStore.InventoryDatabase.AdjustItemInventory` | src/modules/menus/services/menu-item-inventory.service.ts:30-66 | an item or option adjustment is refused for untracked rows and for items with lots, and otherwise moves the stock by the delta |
| `InventoryStore.InventoryDatabase.UpdateInventory` | src/modules/menus/services/menu-item-inventory.service.ts:130-175 | a merchant's update overwrites the stock columns whatever the item's lots hold: nothing sent writes nothing, negative values are refused, untracked rows lose their quantities, newly tracked ones start at zero |
| `InventoryStore.RowsComeAndGo` | src/modules/menus/services/menu-item-inventory.service.ts:100-128 | a new row is tracked if asked to be or if a quantity came, starting at zero without one; a menu item with lots cannot be deleted |
| `InventoryStore.InventoryDatabase.UpdateItemInventoryLot` | src/modules/menus/services/merchant-menu-item-inventory-lots.service.ts:144-205 | changes a lot's dates and no quantity |
| `InventoryStore.InventoryDatabase.AdjustItemInventoryLot` | src/modules/menus/services/merchant-menu-item-inventory-lots.service.ts:220-297 | lot and item move together or, when either half is refused, not at all |
| `InventoryStore.InventoryDatabase.CreateItemInventoryLot` | src/modules/menus/services/merchant-menu-item-inventory-lots.service.ts:50-115 | a new lot raises its item's stock by its quantity; a first lot is refused while the item has direct stock |
| `InventoryStore.InventoryDatabase.ListLots` | src/modules/menus/repositories/menus.repository.ts:626-635 | lists each lot of the item once, in any order |
| `InventoryStore.InventoryDatabase.ListAvailableLots` | src/modules/menus/services/menu-inventory-lifecycle.service.ts:311-323 | the available lots in comparator order, equal to the filtered item order |
| `InventoryStore.InventoryDatabase.WalkLots` | src/modules/menus/services/menu-inventory-lifecycle.service.ts:344-383 | the allocation loop drains and records exactly what the closed form says |
| `InventoryStore.InventoryDatabase.ReserveLots` | src/modules/menus/services/menu-inventory-lifecycle.service.ts:306-384 | refused exactly when the lots cannot cover the quantity, with nothing taken; otherwise lots and allocations are those of the walk |
| `InventoryStore.InventoryDatabase.ReserveItem` | src/modules/menus/services/menu-inventory-lifecycle.service.ts:85-134 | lots first, then the guarded decrement, then the alert; success exactly when both hold |
| `InventoryStore.InventoryDatabase.ReserveOption` | src/modules/menus/services/menu-inventory-lifecycle.service.ts:163-202 | one option's guarded decrement and its alert |
| `InventoryStore.InventoryDatabase.ReserveVariant` | src/modules/menus/services/menu-inventory-lifecycle.service.ts:136-161 | the variant's guarded decrement where the line tracks one |
| `InventoryStore.InventoryDatabase.ReserveChoices` | src/modules/menus/services/menu-inventory-lifecycle.service.ts:163-202 | the option loop equals applying the options' takes in order, with their alerts |
| `InventoryStore.InventoryDatabase.ReserveLine` | src/modules/menus/services/menu-inventory-lifecycle.service.ts:84-203 | a line takes its item, variant and options in order, and reports its allocations |
| `InventoryStore.InventoryDatabase.ReserveLines` | src/modules/menus/services/menu-inventory-lifecycle.service.ts:74-209 | the loop over lines equals applying all takes in order, with alerts and keyed allocations |
| `InventoryStore.InventoryDatabase.ReserveForOrder` | src/modules/menus/services/menu-inventory-lifecycle.service.ts:74-209 | all or nothing: succeeds exactly when the summed demand fits, leaves the closed form, lots used soonest expiry first, reports endpoint alerts and the allocations per line key |
| `InventoryStore.InventoryDatabase.RestoreForOrder` | src/modules/menus/services/menu-inventory-lifecycle.service.ts:211-256 | the loop puts back every line's recorded quantities and allocations |
| `InventoryStore.InventoryDatabase.RestoreOne` | src/modules/menus/services/menu-inventory-lifecycle.service.ts:215-254 | one line gives back its item, lots, variant and options |
| `InventoryStore.InventoryDatabase.RestoreLots` | src/modules/menus/services/menu-inventory-lifecycle.service.ts:223-229 | puts back every recorded allocation |
| `InventoryStore.InventoryDatabase.RestoreChoices` | src/modules/menus/services/menu-inventory-lifecycle.service.ts:244-254 | puts back the quantity for every tracked option of the line |
| `InventoryStore.InventoryDatabase.CollectRestorationAlerts` | src/modules/menus/services/menu-inventory-lifecycle.service.ts:258-304 | each restored item and option is reported once, with exactly the summed amount and its present row |
| `InventoryStore.InventoryDatabase.AccumulateLine` | src/modules/menus/services/menu-inventory-lifecycle.service.ts:265-281 | the per-resource totals after a line are the summed demand so far |
| `InventoryStore.InventoryDatabase.AccumulateChoices` | src/modules/menus/services/menu-inventory-lifecycle.service.ts:270-280 | adds the line's quantity for every tracked option |
| `InventoryStore.InventoryDatabase.BuildEvents` | src/modules/menus/services/menu-inventory-lifecycle.service.ts:285-301 | one event per existing row with a positive total |
| `Alerts.StepwiseAlertsMatchEndpoints` | src/modules/menus/services/menu-inventory-lifecycle.service.ts:405-466 | emitting after every decrement keeps the alerts equal to the level difference since the start, one per resource, at the present level |
| `Alerts.QuoteStaysCurrentExactly` | src/modules/menus/services/menu-inventory-lifecycle.service.ts:128-133 | after a further decrement the quoted stock is the present one exactly when the level worsens again |
| `Alerts.AlertComesExactlyOnCrossing` | src/modules/menus/services/menu-inventory-lifecycle.service.ts:405-466 | one decrement of a tracked row raises an alert exactly when stock goes from positive to none, or to a positive rest at or under the threshold from above it, and quotes what is left |
| `Alerts.OrderAlertsTellCrossings` | src/modules/menus/services/menu-inventory-lifecycle.service.ts:121-134 | an order raises one alert for exactly the tracked menu items and options whose stock ran out or fell to the threshold over the whole order |
| `Restoration.RecordsAccountForLots` | src/modules/menus/services/menu-inventory-lifecycle.service.ts:96-106 | the allocations recorded for an order sum to what each lot lost |
| `Restoration.KeysFindTheirAllocations` | src/modules/checkout/services/checkout-submission.service.ts:172-178 | with distinct line keys every order line is stored with its own allocations |
| `Restoration.PlacedOrderMatchesLines` | src/jobs/order-timeout.job.ts:126-146 | the stored order asks for the same resources and returns to each lot what was recorded |
| `Restoration.RestorationAddsBackStock` | src/modules/menus/services/menu-inventory-lifecycle.service.ts:215-254 | a row after restoration is the row before plus the order's summed demand |
| `Restoration.RestorationAddsBackLots` | src/modules/menus/services/menu-inventory-lifecycle.service.ts:223-229 | a lot after restoration is the lot before plus its recorded allocations |
| `Restoration.RestorationUndoesReservation` | src/jobs/order-timeout.job.ts:121-151 | reserving, storing per line key and restoring through the timeout mapping gives back the original tables exactly |
| `Conservation.EveryRunConserves` | src/modules/menus/repositories/menus.repository.ts:161-233 | over any run of reservations, restorations and adjustments (item updates and new lots are not among the events) each stock is initial plus adjustments minus outstanding orders, never negative; lots keep 0 <= remaining <= received |
| `Conservation.ReserveConserves` | src/modules/menus/services/menu-inventory-lifecycle.service.ts:84-203 | a reservation keeps the balance of the ledger, or changes nothing |
| `Conservation.RestoreConserves` | src/modules/menus/services/menu-inventory-lifecycle.service.ts:211-256 | a first restoration keeps the balance of the ledger; a repeated one changes nothing |
| `Conservation.AdjustLotConserves` | src/modules/menus/repositories/menus.repository.ts:682-722 | a lot adjustment keeps the balance of item, lot and received quantities |
| `Conservation.ReserveKeepsBalance` | src/modules/menus/services/menu-inventory-lifecycle.service.ts:96-112 | a reservation keeps a lot-using item's stock equal to its lots' total |
| `Conservation.PlacedOrdersGiveEvenly` | src/modules/menus/services/menu-inventory-lifecycle.service.ts:96-112 | an order reserved from lots will give its item and its lots the same amount |
| `Conservation.EveryRunKeepsBalance` | src/modules/menus/services/merchant-menu-item-inventory-lots.service.ts:220-297 | over any run of reservations, restorations and adjustments (item updates and new lots are not among the events) an item that starts equal to its lots' total stays equal |
| `LotCreation.PlacedOrderIsRecorded` | src/modules/menus/services/menu-inventory-lifecycle.service.ts:90-106 | an order gives to existing lots only, and to its item's lots what it took of the item, if there were any |
| `LotCreation.NewLotsKeepBalance` | src/modules/menus/services/merchant-menu-item-inventory-lots.service.ts:60-115 | creating a lot keeps every item equal to its lots' total, for a first lot because the direct stock is used up |
| `LotCreation.DatesKeepBalance` | src/modules/menus/services/merchant-menu-item-inventory-lots.service.ts:144-205 | changing a lot's dates, which may reorder the lots, keeps every item equal to its lots' total |
| `LotCreation.BalanceIsKeptExactly` | src/modules/menus/services/merchant-menu-items.service.ts:187-263 | under any reservation, restoration or adjustment, any new or redated lot and any created, updated or deleted row, a balanced item stays balanced exactly unless an order comes back that was placed when the item had no lots and took some of it, now that it has lots, or an update of the item writes a stock other than its lots' total |
| `LotCreation.EveryRunStaysBalanced` | src/modules/menus/services/merchant-menu-item-inventory-lots.service.ts:50-205 | a run of all these from a balanced start is balanced throughout exactly when no such order comes back and no such update is made |
| `LotCreation.OverwriteIsReachable` | src/modules/menus/services/menu-item-inventory.service.ts:161-174 | a run in which an update parts them: a lot of five, then a stock of nine |
| `LotCreation.UnevenReturnIsReachable` | src/modules/menus/services/menu-inventory-lifecycle.service.ts:216-230 | a run that parts them: ordered empty, first lot, cancelled |
| `DispatchDatabase.DispatchTables.constructor` | src/modules/dispatch/services/auto-dispatch.service.ts:28-38 | the tables start empty |
| `DispatchDatabase.DispatchTables.UpdateOrderStatus` | src/modules/orders/repositories/orders.repository.ts:281-304 | overwrites the status of one order and nothing else |
| `DispatchDatabase.DispatchTables.AssignAndNotify` | src/modules/dispatch/services/auto-dispatch.service.ts:311-388 | records the attempt, then either publishes the assignment or marks the attempt failed and asks for a retry; equal to the atomic step |
| `DispatchDatabase.DispatchTables.CancelOrderNoRider` | src/modules/orders/services/order-cancellation.service.ts:180-240 | cancels unless already cancelled |
| `DispatchDatabase.DispatchTables.PickEligibleRider` | src/modules/dispatch/services/auto-dispatch.service.ts:297-309 | an untried rider from one of the lists, the township's before any, and none exactly when every listed rider was tried |
| `DispatchDatabase.DispatchTables.FirstEligible` | src/modules/dispatch/services/auto-dispatch.service.ts:303-308 | the first rider not tried, or none exactly when all were tried |
| `DispatchDatabase.DispatchTables.HandleAutoDispatchOrder` | src/modules/dispatch/services/auto-dispatch.service.ts:93-144 | leaves the tables of the atomic dispatch step; asks for a retry exactly when an order that needs a rider was offered and its transaction failed |
| `DispatchDatabase.DispatchTables.DispatchOrCancelOrder` | src/modules/dispatch/services/auto-dispatch.service.ts:253-284 | gives up at the limit, waits without a candidate, assigns otherwise; asks for a retry exactly when the assignment failed |
| `DispatchDatabase.DispatchTables.FindReadyOrder` | src/modules/dispatch/repositories/dispatch.repository.ts:62-79 | the earliest placed accepted delivery order without a delivery row, ties by id, within the township if given |
| `Dispatch.First` | src/modules/dispatch/repositories/dispatch.repository.ts:77-78 | of a set of orders the one placed first, ties by id; none exactly when the set is empty |
| `Dispatch.ChooseOrder` | src/modules/dispatch/services/auto-dispatch.service.ts:161-182 | an order that was never assigned, and none exactly when there is none anywhere |
| `Dispatch.ChosenOrderWasPlacedFirst` | src/modules/dispatch/services/auto-dispatch.service.ts:161-182 | a rider who comes free is given the order placed first among the accepted deliveries without a delivery row: in the rider's township if any waits there, else anywhere |
| `DispatchDatabase.DispatchTables.HandleAutoDispatchForRider` | src/modules/dispatch/services/auto-dispatch.service.ts:146-183 | a newly available rider gets the township's earliest such order, or else the earliest anywhere; asks for a retry exactly when that assignment failed |
| `DispatchDatabase.DispatchTables.HandleRiderDispatchTimeout` | src/modules/dispatch/services/auto-dispatch.service.ts:186-285 | leaves the tables of the atomic timeout step: settle, take back, then cancel or offer again; asks for a retry exactly when that offer failed |
| `DispatchDatabase.DispatchTables.RiderAct` | src/modules/deliveries/services/rider-delivery-actions.service.ts:72-290 | reply and tables of every rider action, including settling the attempt on accept and reject |
| `DispatchDatabase.DispatchTables.HandleTransition` | src/modules/deliveries/services/rider-delivery-actions.service.ts:312-388 | not found, already done, conflict, missing reason or the transition, in the code's order |
| `DispatchDatabase.DispatchTables.CancelCurrentRiderDelivery` | src/modules/deliveries/services/rider-delivery-actions.service.ts:210-290 | the pre-pickup cancel resets the row and leaves the attempt log alone |
| `DispatchDatabase.DispatchTables.ResolveDispatchAttempt` | src/modules/deliveries/services/rider-delivery-actions.service.ts:423-442 | settles the rider's latest pending attempt on the order, if any |
| `DispatchDatabase.DispatchTables.HandleMerchantTimeout` | src/jobs/order-timeout.job.ts:50-72 | cancels exactly the orders still placed |
| `DispatchDatabase.DispatchTables.HandleRiderTimeout` | src/jobs/order-timeout.job.ts:75-104 | cancels exactly the accepted orders no rider holds |
| `OrderDelivery.AssignKeepsAgreement` | src/modules/deliveries/repositories/deliveries.repository.ts:88-124 | an assignment of an accepted delivery order leaves matching rows and fresh milestones |
| `OrderDelivery.DispatchKeepsAgreement` | src/modules/dispatch/services/auto-dispatch.service.ts:117-143 | so does giving up or offering |
| `OrderDelivery.TimeoutKeepsAgreement` | src/modules/dispatch/services/auto-dispatch.service.ts:186-285 | so does the timeout with what follows it |
| `OrderDelivery.ActKeepsAgreement` | src/modules/deliveries/services/rider-delivery-actions.service.ts:72-388 | so does every rider action |
| `OrderDelivery.OthersAreUntouched` | src/modules/dispatch/services/auto-dispatch.service.ts:93-285 | a step changes the order and delivery rows of one order only |
| `OrderDelivery.EveryRunAgreesExactly` | src/modules/deliveries/policies/rider-delivery-policy.helper.ts:22-116 | in every reachable state of an order whose status was not overridden, order and delivery statuses match pairwise and milestones are set exactly up to the status and never decrease, exactly when it was not cancelled with a rider on its delivery; where it was, that rider is stranded on it |
| `OrderDelivery.NoRiderMeansUnassigned` | src/modules/dispatch/services/auto-dispatch.service.ts:98-106 | no rider exactly when there is no delivery or it awaits assignment; assigned order exactly with assigned delivery |
| `OrderDelivery.CancellationKeepsAgreementExactly` | src/modules/orders/services/admin-order-operations.service.ts:44-174 | a cancellation by customer or administrator keeps agreement exactly when no rider is on the delivery |
| `OrderDelivery.CustomerCancelKeepsAgreementExactly` | src/modules/orders/services/order-cancellation.service.ts:36-118 | for the customer: exactly when the order is not a delivery being prepared or ready |
| `OrderDelivery.LateCancellationStrands` | src/modules/orders/services/admin-order-operations.service.ts:44-174 | otherwise it leaves an active delivery with its rider on a cancelled order |
| `OrderDelivery.LateCancellationIsReachable` | src/modules/orders/services/order-cancellation.service.ts:36-118 | a run in which a customer strands a rider |
| `OrderDelivery.StrandedRiderStaysStranded` | src/modules/deliveries/policies/rider-delivery-policy.helper.ts:22-116 | and no later event but a status override frees that rider |
| `OrderDelivery.StrandedRiderIsNeverAssigned` | src/modules/dispatch/services/auto-dispatch.service.ts:337-345 | whose every later assignment fails the active count |
| `OrderDelivery.RefusalSurvivesExactly` | src/modules/orders/policies/order-inventory-lifecycle.helper.ts:13-25 | a refused order stays refused, and releases nothing again, exactly unless its status is overridden to another |
| `OrderDelivery.RefusalHasOneCause` | src/modules/orders/policies/order-inventory-lifecycle.helper.ts:13-25 | an order becomes refused by a change that releases its stock or by a late cancellation or override, and not by both; failed payments included |
| `OrderDelivery.StockIsReleasedOnce` | src/modules/orders/policies/order-inventory-lifecycle.helper.ts:13-25 | in every run, each request being one atomic step, releases and late refusals together are as many as refusals: one if refused now, and one for each override that brought the order back |
| `OrderDelivery.CancellationsReleaseByStatus` | src/modules/orders/policies/order-inventory-lifecycle.helper.ts:4-25 | cancelling a placed or accepted order gives its stock back; from preparing on the stock stays used |
| `OrderDelivery.OtherRefusalsReleaseByStatus` | src/modules/orders/policies/order-inventory-lifecycle.helper.ts:4-25 | the same for rejections, failed payments and overrides, by the statuses from and to |
| `DispatchAttempts.LatestPendingIsFound` | src/modules/deliveries/services/rider-delivery-actions.service.ts:429-432 | the search finds the newest pending attempt of the pair, or there is none |
| `DispatchAttempts.StepShape` | src/modules/dispatch/services/auto-dispatch.service.ts:146-388 | every step settles pending attempts or appends one offer, and never rewrites settled ones |
| `DispatchAttempts.OfferIsNew` | src/modules/dispatch/services/auto-dispatch.service.ts:117-132 | an offer is below the limit and to an untried rider, or of an order with no live attempt |
| `DispatchAttempts.AssignmentsGoToDistinctRiders` | src/modules/dispatch/services/auto-dispatch.service.ts:131-143 | in every run the committed assignments of one order go to pairwise distinct riders, the rider-triggered path included |
| `DispatchAttempts.FailuresAreCounted` | src/modules/dispatch/services/auto-dispatch.service.ts:117-128 | the failures of an order are its attempts that timed out or were rejected, each counted once |
| `DispatchAttempts.RejectionCounts` | src/modules/deliveries/services/rider-delivery-actions.service.ts:423-441 | a rider's rejection of an open offer adds one failure to that order and to no other |
| `DispatchAttempts.ExpiryCounts` | src/modules/dispatch/services/auto-dispatch.service.ts:203-206 | so does the expiry of an open attempt |
| `DispatchAttempts.ThreeFailuresCancel` | src/modules/dispatch/services/auto-dispatch.service.ts:93-144 | a dispatch job for an accepted delivery without a rider cancels it at three failures, and below three offers it to an untried candidate if there is one |
| `DispatchAttempts.OthersAreNotDispatched` | src/modules/dispatch/services/auto-dispatch.service.ts:98-115 | a job for an order that is not accepted, is a pickup or has a rider on its delivery changes nothing |
| `DispatchAttempts.ThirdTimeoutCancels` | src/modules/dispatch/services/auto-dispatch.service.ts:253-275 | a timeout that is the third failure cancels the order |
| `DispatchAttempts.NoOfferAtTheLimit` | src/modules/dispatch/services/auto-dispatch.service.ts:117-128 | in every run no assignment is made at three or more timed-out or rejected attempts |
| `DispatchAttempts.StepGrowsTried` | src/modules/dispatch/services/auto-dispatch.service.ts:289-295 | a step forgets no tried rider and tries only candidates; every retry of a job for the order adds a rider |
| `DispatchAttempts.RetriesLeaveAFailedAttempt` | src/modules/dispatch/services/auto-dispatch.service.ts:371-388 | an order is queued again exactly when the step left a failed attempt on it |
| `DispatchAttempts.RetryChainTerminates` | src/modules/dispatch/services/auto-dispatch.service.ts:371-388 | counting every re-queue, an order is queued again at most once per rider in the system plus once per rider whose becoming available picked it |
| `DispatchAttempts.RiderTriggeredRetryMayRepeatARider` | src/modules/dispatch/services/auto-dispatch.service.ts:161-182 | the second part is needed: such a failure for a tried rider queues again and adds no rider |
| `AttemptOwnership.RepeatedRetryIsReachable` | src/modules/dispatch/services/auto-dispatch.service.ts:161-182 | a run in which that happens: a rider comes free twice and the transaction fails twice |
| `RiderAvailability.AssignmentCommitsExactly` | src/modules/dispatch/services/auto-dispatch.service.ts:337-345 | an assignment commits exactly when the transaction is healthy, the order exists and no delivery row of the rider is assigned, accepted, picked up or on the way |
| `RiderAvailability.AssignmentGivesTheOrder` | src/modules/dispatch/services/auto-dispatch.service.ts:347-388 | a committed assignment gives order and delivery to the rider and leaves an open offer; a failed one leaves both rows and a failed attempt |
| `RiderAvailability.EndingFreesTheRider` | src/modules/deliveries/services/rider-delivery-actions.service.ts:94-269 | delivering, failing, rejecting or cancelling an order takes it, and only it, off the rider's active ones |
| `RiderAvailability.GoingOnKeepsTheRider` | src/modules/deliveries/services/rider-delivery-actions.service.ts:94-269 | accepting, picking up and going on the way keep it among them |
| `RiderAvailability.TimeoutTakesBackExactly` | src/modules/dispatch/services/auto-dispatch.service.ts:203-251 | a timeout settles its attempt and takes the order back exactly when order and delivery both still wait for the answer |
| `RiderAvailability.TimeoutFreesTheRider` | src/modules/dispatch/services/auto-dispatch.service.ts:209-251 | which takes the order, and only it, off the rider's active ones |
| `RiderAvailability.FreeRidersAreAssigned` | src/modules/dispatch/services/auto-dispatch.service.ts:337-364 | a rider whose one active order ends is assigned any standing order by the next healthy transaction |
| `RiderAvailability.TimedOutRidersAreAssigned` | src/modules/dispatch/services/auto-dispatch.service.ts:337-364 | and so is one whose unanswered offer timed out |
| `OrderCourse.PlacingRecordsTheOrder` | src/modules/orders/repositories/orders.repository.ts:317-350 | placing records the order once: placed, with its type, time and township |
| `OrderCourse.MerchantsMayExactly` | src/modules/orders/policies/order-policy.service.ts:78-130 | each merchant action from exactly its statuses, pickups and deliveries apart |
| `OrderCourse.CancellationsMayExactly` | src/modules/orders/policies/order-policy.service.ts:15-32 | the statuses from which customer, administrator and dispatch cancel |
| `OrderCourse.TimeoutsMayExactly` | src/jobs/order-timeout.job.ts:51-104 | overrides, failed payments and the two timeouts, from exactly their statuses |
| `OrderCourse.RidersMayExactly` | src/modules/deliveries/policies/rider-delivery-policy.helper.ts:22-116 | a rider's action on an own order succeeds from exactly its pairs of order and delivery status |
| `OrderCourse.ActionsRecordTheMoment` | src/modules/deliveries/services/rider-delivery-actions.service.ts:70-269 | what each action writes: the order's status, and on the delivery row the status and the moment; rejecting and cancelling take the rider and the later milestones off |
| `OrderCourse.RepeatedActionsChangeNothing` | src/modules/deliveries/services/rider-delivery-actions.service.ts:320-334 | an action done already succeeds and changes neither order nor delivery |
| `OrderCourse.EveryStationIsReached` | src/modules/deliveries/services/rider-delivery-actions.service.ts:94-269 | each action in turn takes order and delivery one station further |
| `OrderCourse.TheCourseEndsDelivered` | src/modules/deliveries/services/rider-delivery-actions.service.ts:94-269 | from placing through acceptance, assignment, preparation and pick-up the order ends delivered and its rider free of it |
| `AttemptOwnership.EveryRunKeepsOffers` | src/modules/dispatch/services/auto-dispatch.service.ts:186-285 | in every reachable state of an order whose riders cancel only after accepting and whose status is not overridden, open offers match its delivery |
| `AttemptOwnership.OneOpenOffer` | src/modules/dispatch/services/auto-dispatch.service.ts:318-326 | then an assigned order has an open offer, no order has two, an open offer belongs to the rider on the delivery of an assigned or cancelled order, and failures are at most three |
| `AttemptOwnership.TimeoutUnassignsItsOwnRider` | src/modules/dispatch/services/auto-dispatch.service.ts:190-251 | then a timeout finds the rider it was set for on the delivery, takes a standing order from that rider, leaves a cancelled one and touches no other order |
| `AttemptOwnership.CancellationKeepsOffersExactly` | src/modules/deliveries/services/rider-delivery-actions.service.ts:239-269 | offers survive a rider's cancellation exactly when the delivery was accepted |
| `AttemptOwnership.StaleTimeoutHitsAnotherRider` | src/modules/dispatch/services/auto-dispatch.service.ts:203-232 | after a cancellation before accepting, the first rider's timeout unassigns the second |
| `AttemptOwnership.StaleTimeoutIsReachable` | src/modules/dispatch/services/auto-dispatch.service.ts:203-232 | a reachable state from which that happens |
| `RiderExclusivity.OnlyAssignmentActivates` | src/modules/deliveries/policies/rider-delivery-policy.helper.ts:22-116 | no event but an assignment gives a rider another active delivery |
| `RiderExclusivity.CommitIsSafe` | src/modules/dispatch/services/auto-dispatch.service.ts:328-364 | a commit keeps one active delivery per rider, and every other counted transaction's count valid |
| `RiderExclusivity.EveryPlayIsSafe` | src/modules/dispatch/services/auto-dispatch.service.ts:328-364 | locks exclude and counts hold in every interleaving |
| `RiderExclusivity.NoDoubleBooking` | src/modules/dispatch/services/auto-dispatch.service.ts:328-364 | for every interleaving and every lock hash no rider has two active deliveries |
| `RiderExclusivity.UninterruptedIsAtomic` | src/modules/dispatch/services/auto-dispatch.service.ts:311-388 | the transaction run alone is the atomic assignment |
| `RiderExclusivity.AbortedIsFailed` | src/modules/dispatch/services/auto-dispatch.service.ts:371-375 | aborted at any phase it leaves just a failed attempt |
| `RiderExclusivity.UninterruptedJobIsAtomic` | src/modules/dispatch/services/auto-dispatch.service.ts:93-144 | a dispatch job run alone is the atomic step: given up, assigned or dropped |
| `RiderExclusivity.UninterruptedRiderJobIsAtomic` | src/modules/dispatch/services/auto-dispatch.service.ts:146-183 | so is the job a rider's availability triggers |
| `RiderExclusivity.UninterruptedTimeoutIsAtomic` | src/modules/dispatch/services/auto-dispatch.service.ts:186-285 | so is a timeout, whether its attempt is settled, answered or open |
| `RiderExclusivity.MovesOutOfTurnChangeNothing` | src/modules/dispatch/services/auto-dispatch.service.ts:311-388 | no phase is entered but from the one before it, no lock taken that is held, and no order given up before three failures |
| `RiderExclusivity.RefusalSurvivesExactly` | src/modules/dispatch/services/auto-dispatch.service.ts:353-363 | for every state and move a refused order stays refused exactly unless a transaction of it commits or an override sets another status |
| `RiderExclusivity.RevivalWasUnderWay` | src/modules/dispatch/services/auto-dispatch.service.ts:98-106 | in every play the handler that revives a refused order had taken it up before the refusal |
| `RiderExclusivity.ReleasesAreBounded` | src/modules/dispatch/services/auto-dispatch.service.ts:353-363 | in every play, requests atomic and dispatch handlers interleaved, stock is released once, and once more at most for each commit or override that undid a refusal |
| `RiderExclusivity.CommitRevivesRefusedOrder` | src/modules/dispatch/services/auto-dispatch.service.ts:353-363 | a play in which the customer cancels, the stock is released, and the commit assigns the order all the same |
| `RiderExclusivity.LockIsNeeded` | src/modules/dispatch/services/auto-dispatch.service.ts:330-335 | two counted transactions of one rider, which only the lock excludes, would double-book |
| `StaleDecisions.DecidedAtOnceIsAtomic` | src/modules/orders/services/merchant-order-handling.service.ts:141-180 | a request carried out as soon as it has read the order is the atomic step, with the same release of stock |
| `StaleDecisions.GivesUpExactly` | src/modules/dispatch/services/auto-dispatch.service.ts:117-128 | a job decides to give its order up exactly at three failures, unless the order is cancelled already |
| `StaleDecisions.DecisionsAreKept` | src/modules/orders/services/order-cancellation.service.ts:56-118 | a decision is kept until it is carried out or abandoned, once, and carrying it out writes just that status |
| `StaleDecisions.EveryHistoryIsSafe` | src/modules/dispatch/services/auto-dispatch.service.ts:328-364 | no rider has two active deliveries even when requests interleave between their read and their write |
| `StaleDecisions.ReleasesAreAccountedFor` | src/modules/orders/policies/order-inventory-lifecycle.helper.ts:13-25 | in every interleaving releases and refusals without one are the present refusal, the refusals undone, and the releases that found the order refused already |
| `StaleDecisions.RefusalStandsExactly` | src/modules/orders/services/order-cancellation.service.ts:86-118 | a refused order stays refused and releases nothing again exactly unless a decision to release or to revive it is carried out, a transaction of it commits, or an override sets another status |
| `StaleDecisions.HarmWasDecidedBefore` | src/modules/orders/services/order-cancellation.service.ts:56-84 | whatever releases a refused order's stock again, or revives it without an override, had read the order before the refusal |
| `StaleDecisions.ReleasedOnceUnlessOverlapped` | src/jobs/order-timeout.job.ts:51-151 | an order never overridden, and refused only while no request that could release or revive it and no dispatch handler of it is under way, releases its stock once at most and stays refused |
| `StaleDecisions.OrdinaryCancellationReleasesOnce` | src/modules/orders/services/order-cancellation.service.ts:56-118 | a history that meets the condition: a cancellation with nothing else under way releases once |
| `StaleDecisions.OverlappingCancellationsReleaseTwice` | src/jobs/order-timeout.job.ts:51-151 | a history in which the customer's cancellation and the merchant timeout overlap and the stock comes back twice |
| `StaleDecisions.OverlappingAcceptanceRevives` | src/modules/orders/services/merchant-order-handling.service.ts:141-180 | a history in which the merchant's acceptance overlaps the cancellation: the stock is back and the order accepted |
| `CheckoutPricing.DiscountIsBounded` | src/modules/promotions/services/promotion-pricing.service.ts:126-149 | a sound promotion's discount lies between zero and the subtotal and within its maximum; free delivery waives the fee instead |
| `CheckoutPricing.AmountsAgreeExactly` | src/modules/checkout/services/checkout-pricing.service.ts:32-47 | order total is subtotal less discount plus recorded fee; the payment asks the same exactly unless a pickup was priced with an address |
| `CheckoutPricing.DiscountByKind` | src/modules/promotions/services/promotion-pricing.service.ts:126-149 | free delivery takes nothing off, a fixed amount its value and a percentage that share of the subtotal, each capped by the maximum and the subtotal |
| `CheckoutPricing.FeeByDelivery` | src/modules/checkout/services/checkout-pricing.service.ts:32-47 | the fee is 1500 for a delivery whose promotion does not waive it and nothing otherwise; total and payment are subtotal less discount plus fee |
| `CheckoutSubmission.FindOrderFinds` | src/modules/orders/repositories/orders.repository.ts:306-315 | the lookup by idempotency key finds an order with the key exactly when there is one |
| `CheckoutSubmission.InsertingMeetsClashes` | src/modules/checkout/services/checkout-submission.service.ts:95-121 | inserting the row succeeds exactly without clashes of key, code or payment key; a code clash fails the submission unless the key is reported first, and a key clash sends it to look again |
| `ExactlyOnce.DisjointReservationsFit` | src/modules/menus/services/menu-inventory-lifecycle.service.ts:84-203 | reservations that share no row do not get in each other's way |
| `ExactlyOnce.ReplayWritesNothing` | src/modules/checkout/services/checkout-submission.service.ts:464-499 | with a payment per order a replay creates none |
| `ExactlyOnce.CommittingIsSound` | src/modules/checkout/services/checkout-submission.service.ts:95-220 | a commit adds one order, its payment, its deduction and its cart, and breaks no other submission |
| `ExactlyOnce.EveryPlayIsSound` | src/modules/checkout/services/checkout-submission.service.ts:95-220 | the invariant holds in every interleaving of submissions |
| `ExactlyOnce.OneOrderPerKey` | src/modules/checkout/services/checkout-submission.service.ts:95-121 | at most one order per key, made by one submission, with exactly one payment of the quoted amount |
| `ExactlyOnce.CommittedAmounts` | src/modules/checkout/services/checkout-submission.service.ts:130-196 | in every interleaving each committed order carries the fee and total of its own quote, and its one payment asks for that total |
| `ExactlyOnce.StockIsDeductedOnce` | src/modules/checkout/services/checkout-submission.service.ts:123-202 | the stock left is the start less each committed order's lines, once each; exactly their carts are closed |
| `ExactlyOnce.LosersChangeNothing` | src/modules/checkout/services/checkout-submission.service.ts:405-462 | only a winning commit changes stock, orders, payments or carts |
| `ExactlyOnce.CollisionFindsTheWinner` | src/modules/checkout/services/checkout-submission.service.ts:405-462 | a submission stopped by the unique key replays the winner's order, or learns the key is another customer's |
| `ExactlyOnce.AnswersAreTrue` | src/modules/checkout/services/checkout-submission.service.ts:268-287 | what a submission is told of has its key and customer, and for a new order its content |
| `CartReuse.RepeatIsReplayedExactly` | src/modules/checkout/services/checkout-context.service.ts:36-50 | a request under the key of a committed order of its customer, one whose branch, items, options and stock validate on arrival, is answered with that order exactly when its cart is still open |
| `CartReuse.RepeatAfterCommitIsRefused` | src/modules/checkout/services/checkout-context.service.ts:36-50 | so the same request sent again after its commit is refused before the key is looked at |
| `CartReuse.CommitRepeatsACartExactly` | src/modules/checkout/services/checkout-submission.service.ts:198-202 | a commit makes another order of its cart exactly when the cart has been ordered before |
| `CartReuse.TwoOrdersOfACartOverlap` | src/modules/checkout/services/checkout-submission.service.ts:198-202 | a cart is ordered twice only under different keys, by submissions that all arrived before its first order was committed |
| `CartReuse.OverlappingKeysOrderACartTwice` | src/modules/checkout/services/checkout-submission.service.ts:94-220 | any two requests for one cart under different keys that both arrive first, and that the stock can serve in turn, both become orders |
| `CartReuse.TrackedCartIsOrderedTwice` | src/modules/checkout/services/checkout-submission.service.ts:94-220 | a play with a tracked line: two orders, two portions |
| `CartReuse.RepeatsOfBothKinds` | src/modules/checkout/services/checkout-context.service.ts:36-50 | one repeat that is refused and one that is replayed |
| `CheckoutDatabase.CheckoutTables.constructor` | src/modules/checkout/services/checkout-submission.service.ts:95-220 | the order tables start empty over a given inventory |
| `CheckoutDatabase.CheckoutTables.SubmitCheckout` | src/modules/checkout/services/checkout-submission.service.ts:94-220 | replay, conflict, out of stock, code clash or creation, each exactly under its condition, with the whole new state |
| `CheckoutDatabase.CheckoutTables.FindByIdempotencyKey` | src/modules/orders/repositories/orders.repository.ts:306-315 | finds the order with the key |
| `CheckoutDatabase.CheckoutTables.AnswerReplay` | src/modules/checkout/services/checkout-submission.service.ts:464-499 | refuses another customer; otherwise answers with the order, creating a payment only if it has none |
| `CheckoutDatabase.UninterruptedSubmission` | src/modules/checkout/services/checkout-submission.service.ts:94-220 | the transaction on its own is one of the interleavings: creates exactly when it may, or changes nothing |
| `VariantSignature.Trim` | src/modules/menus/utils/item-variant-combination.util.ts:2 | the result is made of the input's characters and has no white space at either end |
| `VariantSignature.SpacesByCodePoint` | src/modules/menus/utils/item-variant-combination.util.ts:1-5 | the characters that trimming strips, by code point |
| `VariantSignature.CanonicalIsTheSelection` | src/modules/menus/utils/item-variant-combination.util.ts:2-3 | deduplicated and sorted, a list is the ascending sequence of its set of ids |
| `VariantSignature.AscendingIsUnique` | src/modules/menus/utils/item-variant-combination.util.ts:3 | ascending sequences of the same ids are equal |
| `VariantSignature.JoinIsInjective` | src/modules/menus/utils/item-variant-combination.util.ts:4 | joining with the separator loses nothing as long as no id contains it |
| `VariantSignature.SignatureIdentifiesSelection` | src/modules/menus/utils/item-variant-combination.util.ts:1-5 | two lists have one signature exactly when their sets of trimmed non-empty ids are equal |
| `VariantSignature.SeparatorInAnIdCollides` | src/modules/menus/utils/item-variant-combination.util.ts:1-5 | concrete case: an id containing the separator collides |
| `OrderCartItems.CombinationsAreFound` | src/modules/checkout/services/checkout-submission.service.ts:316-336 | the map keyed by item and signature gives what the lookup by item and options gives |
| `OrderCartItems.LineAgrees` | src/modules/checkout/services/checkout-submission.service.ts:320-378 | a line built from the maps is the line built on its own |
| `OrderCartItems.BatchingChangesNothing` | src/modules/checkout/services/checkout-submission.service.ts:296-380 | three queries for the cart give, line by line, what separate lookups give, errors included |
| `OrderCartItems.KeysTellApart` | src/modules/checkout/services/checkout-submission.service.ts:315-318 | the composed key determines item and signature as long as item ids have no colon |
| `OrderCartItems.ColonInAnIdMixesItems` | src/modules/checkout/services/checkout-submission.service.ts:315-318 | concrete case: a colon in an item id makes two keys one |
| `OrderCartItems.VariantIsTheChosenSet` | src/modules/menus/services/menus.service.ts:123-137 | a line with variant options gets the active combination of exactly that set, or is refused when there is none |
| `OrderCartItems.BuiltLinesFollowTheCart` | src/modules/checkout/services/checkout-submission.service.ts:338-378 | every built line has its cart line's key, item, quantity and options in order, the item tracked exactly if the menu's row for it is, and each option if its row is |
| `OrderCartItems.DemandIsTheCart` | src/modules/checkout/services/checkout-submission.service.ts:338-378 | what the built lines ask of the stock is the cart: the summed quantities of a tracked item, the quantities of the lines choosing a tracked option, nothing of untracked rows |
| `OrderCartItems.VariantOptionsAreSelectors` | src/modules/checkout/services/checkout-submission.service.ts:320-332 | a line's variant options are its options whose row selects a variant |
| `OptionSelection.IndexHoldsActiveOptions` | src/modules/checkout/services/checkout-validation.service.ts:115-131 | the index holds exactly the active options of the active groups |
| `OptionSelection.HasDuplicates` | src/modules/carts/services/cart-mutation.service.ts:486-496 | detects exactly the selections that repeat an id |
| `OptionSelection.LoadCartOptions` | src/modules/carts/services/cart-mutation.service.ts:327-347 | filtering first, then entering, builds the same index |
| `OptionSelection.TakeSelections` | src/modules/carts/services/cart-mutation.service.ts:349-367 | fails exactly on an unknown option; counts every group |
| `OptionSelection.WithinLimits` | src/modules/carts/services/cart-mutation.service.ts:369-387 | every active group's count lies within its limits |
| `OptionSelection.ResolveSelectedOptions` | src/modules/carts/services/cart-mutation.service.ts:320-397 | accepts exactly the duplicate-free acceptable selections and returns the options selected |
| `OptionSelection.CheckCartVariant` | src/modules/carts/services/cart-mutation.service.ts:417-469 | the variant options need an active combination with stock |
| `OptionSelection.LoadCheckoutOptions` | src/modules/checkout/services/checkout-validation.service.ts:115-131 | entering active options as it goes builds the same index |
| `OptionSelection.CountSelections` | src/modules/checkout/services/checkout-validation.service.ts:133-156 | fails exactly on an unknown option or one short of stock; counts every group |
| `OptionSelection.AssertSelectionsRemainValid` | src/modules/checkout/services/checkout-validation.service.ts:112-184 | accepts exactly the acceptable selections |
| `OptionSelection.CheckCheckoutVariant` | src/modules/checkout/services/checkout-validation.service.ts:256-312 | the variant options need an active combination with stock |
| `OptionSelection.BothChecksAgree` | src/modules/checkout/services/checkout-validation.service.ts:112-184 | on one snapshot the cart's check accepts exactly what the checkout's accepts among duplicate-free selections |
| `OptionSelection.SelectionOrderDoesNotMatter` | src/modules/carts/services/cart-mutation.service.ts:320-397 | acceptance depends on the set of options, not their order |
| `CustomerCart.StepKeepsPriced` | src/modules/carts/services/cart-mutation.service.ts:59-226 | every mutation, or its refusal, keeps all lines and totals priced |
| `CustomerCart.EveryCartIsPriced` | src/modules/carts/services/cart-pricing.service.ts:19-76 | after any sequence of mutations line totals are quantity times unit price, unit prices are the base at last pricing plus the stored deltas, totals are sums |
| `CustomerCart.AddStoresTheRequest` | src/modules/carts/services/cart-mutation.service.ts:45-113 | adding appends one row with the item, the quantity asked for and base price plus the menu's differences for the chosen options, and raises the totals by it |
| `CustomerCart.UpdateStoresTheRequest` | src/modules/carts/services/cart-mutation.service.ts:115-186 | updating changes that one row: the new quantity, the old unit price or, with new options, the price of the moment, and the totals accordingly |
| `CustomerCart.RemoveDropsTheRow` | src/modules/carts/services/cart-mutation.service.ts:188-203 | removing takes that one row and its options away |
| `CustomerCart.PaymentFollowsTheLines` | src/modules/checkout/services/checkout-submission.service.ts:130-196 | payment amount and order total are the lines' worth less the discount plus the recorded fee |
| `CustomerCart.CartTables.constructor` | src/modules/carts/services/cart-mutation.service.ts:75-84 | a new cart is empty with zero totals |
| `CustomerCart.CartTables.ComputeUnitPrice` | src/modules/carts/services/cart-pricing.service.ts:19-27 | base price plus the deltas of the selected options |
| `CustomerCart.CartTables.RecomputeTotals` | src/modules/carts/services/cart-pricing.service.ts:36-76 | stored totals become the sums over the rows |
| `CustomerCart.CartTables.ResolveOptions` | src/modules/carts/services/cart-mutation.service.ts:291-397 | ok exactly when the item is available and the selection acceptable; returns the option rows to store |
| `CustomerCart.CartTables.AddItem` | src/modules/carts/services/cart-mutation.service.ts:45-113 | adds a priced line with its option rows and recomputes, or changes nothing |
| `CustomerCart.CartTables.UpdateItem` | src/modules/carts/services/cart-mutation.service.ts:115-186 | reprices with new options, or keeps the unit price and changes the quantity, or changes nothing |
| `CustomerCart.CartTables.FindCartItem` | src/modules/carts/services/cart-mutation.service.ts:269-289 | finds the row exactly when it exists |
| `CustomerCart.CartTables.RemoveItem` | src/modules/carts/services/cart-mutation.service.ts:188-203 | removes the row and its option rows and recomputes |
| `CustomerCart.CartTables.ClearCart` | src/modules/carts/services/cart-mutation.service.ts:205-226 | leaves no rows and zero totals |
| `FallbackLimiter.FallbackRecords.constructor` | src/common/guards/throttler.guard.ts:39-40 | no records, swept now |
| `FallbackLimiter.FallbackRecords.SweepIfDue` | src/common/guards/throttler.guard.ts:146-156 | when due, the deletion loop leaves exactly the live records; otherwise nothing changes |
| `FallbackLimiter.FallbackRecords.CheckLimit` | src/common/guards/throttler.guard.ts:121-143 | verdict and new records of one request, the bound included |
| `FallbackLimiter.MapStaysBounded` | src/common/guards/throttler.guard.ts:124-129 | the map never exceeds 50,000 entries, for any requests and clock |
| `FallbackLimiter.RequestsByTheRecord` | src/common/guards/throttler.guard.ts:121-143 | without a live record a request passes and opens a window, uncounted at fifty thousand records; with one it passes and is counted, or is refused at the limit |
| `FallbackLimiter.RunMirrorsFreeRun` | src/common/guards/throttler.guard.ts:146-156 | away from the bound the records are those of an unswept limiter, less expired ones |
| `FallbackLimiter.SweepIsInvisible` | src/common/guards/throttler.guard.ts:121-156 | away from the bound every verdict equals that of an unbounded limiter that never sweeps |
| `FallbackLimiter.FewerThanTwiceTheLimit` | src/common/guards/throttler.guard.ts:121-143 | any half-open interval of length ttl admits at most 2*max(limit,1)-1 requests of a key |
| `FallbackLimiter.CeilingIsReached` | src/common/guards/throttler.guard.ts:121-143 | concrete case: the ceiling is reached |
| `SessionCache.SessionStore.constructor` | src/modules/auth/services/session-cache.service.ts:21-27 | nothing stored, nothing cached |
| `SessionCache.SessionStore.Get` | src/modules/auth/services/session-cache.service.ts:35-41 | an entry exactly when reachable, present and within its time to live |
| `SessionCache.SessionStore.Set` | src/modules/auth/services/session-cache.service.ts:43-52 | writes for a positive time to live when reachable, else changes nothing |
| `SessionCache.SessionStore.Validate` | src/modules/auth/strategies/jwt.strategy.ts:31-150 | answers from the cache or else from the table, there accepting exactly an existing, unrevoked, unexpired session of the token's user with an active account, and then fills the cache with a time to live computed before the write is awaited |
| `SessionCache.SessionStore.RevokeRow` | src/modules/auth/repositories/auth.repository.ts:208-216 | revokes this session's row and no other |
| `SessionCache.SessionStore.InvalidateEntry` | src/modules/auth/services/session-cache.service.ts:54-58 | the entry goes if the cache is reachable; no other entry changes |
| `SessionCache.SessionStore.RotateRow` | src/modules/auth/repositories/auth.repository.ts:188-199 | moves the expiry and revokes or restores nothing |
| `SessionCache.TableVerdictsByTheFacts` | src/modules/auth/strategies/jwt.strategy.ts:89-124 | each verdict of the table under exactly its facts: owner, revocation, expiry, account status |
| `SessionCache.CacheVerdictsByTheFacts` | src/modules/auth/strategies/jwt.strategy.ts:48-87 | each verdict of the cache under exactly its facts |
| `SessionCache.TimeToLiveByTheToken` | src/modules/auth/strategies/jwt.strategy.ts:130-134 | 300 s for a token without expiry, else the whole seconds left of it, if fewer |
| `SessionCache.RowHalvesByChange` | src/modules/auth/repositories/auth.repository.ts:188-216 | the row half of a revocation revokes its session, that of a rotation moves its expiry, and neither touches another row |
| `SessionCache.HalvesHappenOnce` | src/modules/auth/repositories/auth.repository.ts:206-220 | each half of an operation happens once, and a validation writes once |
| `SessionCache.ValidationsReadOnMisses` | src/modules/auth/strategies/jwt.strategy.ts:40-104 | a validation reads the table exactly when the cache has no answer, and goes on exactly when the table accepts |
| `SessionCache.EveryRunIsJustified` | src/modules/auth/strategies/jwt.strategy.ts:126-141 | every cached entry and every validation under way repeats what the table held no longer ago than its time allows |
| `SessionCache.StalenessIsBounded` | src/modules/auth/strategies/jwt.strategy.ts:40-87 | whoever is let in held an unrevoked, unexpired session of an active account at some event of the last 300 s plus one validation's duration, even if every invalidation is lost; from the cache only while that session's recorded expiry is still to come |
| `SessionCache.CachedExactly` | src/modules/auth/strategies/jwt.strategy.ts:126-141 | the cache holds a session exactly when a validation filled it and no invalidation that arrived followed, and holds what the last such validation wrote |
| `SessionCache.EveryFlightRead` | src/modules/auth/strategies/jwt.strategy.ts:92-110 | every validation under way read the table when the session was neither revoked nor expired |
| `SessionCache.ExposureIsWhatLetsIn` | src/modules/auth/strategies/jwt.strategy.ts:31-87 | some request of some bearer lets that bearer in without a look at the row exactly when a validation is open or the entry, its session and its account are in order |
| `SessionCache.RevocationIsEffectiveExactly` | src/modules/auth/repositories/auth.repository.ts:206-220 | after its row update, whatever the order of the two halves and whatever came between, some bearer of a revoked session is let in by some request at a given time exactly when a validation that read the table before that update is still under way, or filled the entry that stands and neither its time to live nor the session has run out |
| `SessionCache.CleanRevocationTakesEffectAtOnce` | src/modules/auth/repositories/auth.repository.ts:206-220 | if no validation has overtaken the revocation at some time, its bearer is let in neither then nor at any later time, whatever happens in between |
| `SessionCache.LostInvalidationIsOutlived` | src/modules/auth/services/session-cache.service.ts:54-58 | a run that lets the bearer in: the invalidation is lost |
| `SessionCache.ValidationUnderWayRefillsTheCache` | src/modules/auth/strategies/jwt.strategy.ts:126-141 | another: a validation under way over both halves refills the cache |
| `SessionCache.ValidationBetweenTheHalvesIsOutlived` | src/modules/auth/repositories/auth.repository.ts:207-218 | another: the invalidation arrives first and a whole validation precedes the row update |
| `SessionCache.EntryEndsWithItsToken` | src/modules/auth/strategies/jwt.strategy.ts:130-141 | in every run an entry ends less than a second plus one validation's duration after the token it was made for, and within 300 s plus that duration after the read |

## Left out

- Batch numbers: neither their snapshots in lot allocations nor their uniqueness within an item when a lot is created.
- Order of the alert and compensation lists: the maps' insertion order is not modelled, only their content.
- Reason codes, notes, audit entries, notifications, system messages: they do not affect the modelled state.
- Cash-on-delivery settlement when a delivery is completed: one guarded payment update beside the step.
- AssignAndNotify: does not model that marking the attempt failed may itself fail silently, which would leave it pending.
- ResolveDispatchAttempt: does not model that settling the attempt may itself fail silently, which would leave it pending.
- Admin manual assignment: it takes no rider lock and no count, so exclusivity and attempt ownership are stated without it.
- The stale-order cleanup script: it cancels without restoring stock, outside the conservation model.
- EveryRunConserves: counts no merchant update of a row and no new lot; an update is an overwrite, not an amount.
- EveryRunKeepsBalance: counts no merchant update of a row and no new lot; LotCreation states when those keep the balance.
- StockIsReleasedOnce: does not model requests that overlap between their read and their write; StaleDecisions does.
- ReleasesAreBounded: does not model requests that overlap between their read and their write; StaleDecisions does.
- RepeatIsReplayedExactly: does not model the validation of branch, items, options and stock that precedes the lookup of the key.
- Interleaved rider actions: they read outside their transaction; every rider action is one atomic step here, and what a stale one does to exclusivity is not modelled.
- Postgres statement scheduling inside a reservation: a transaction that would wait for a row is simply not due yet, and any failure while waiting is an abort.
- Promotion eligibility (dates, minimum, per-customer limit) and usage rows: only the discount and the fee depend on the promotion here.
- Payments beyond their creation and the cancellation of a placed order when one fails.
- Menu, branch and address checks of the checkout context other than item availability and option selection.
- Catalogue ordering, default names and price rounding: prices are exact reals.
- Collation: `localeCompare` and the default string sort are both lexicographic order on characters.
- UpdateInventory: does not model a tracking flag sent as an explicit null (it would count as a sent field without a value), nor the catalogue rules that may refuse the whole update.
- Token signature and role checks before the session lookup.
- Redis-backed rate limiting proper and tracker resolution: only the fallback is modelled.
