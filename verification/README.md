# Verification of the Framed Obsessions shop

This project models the parts of the shop whose mistakes cost money or trust, and proves what they
guarantee over every run.

* **The inventory ledger and the order lifecycle** (`Inventory`, `Pricing`, `Carts`, `StoreModel`,
  `Store`, `StoreRuns`, `StoreBooks`, `StoreSteps`, `StorePhases`, `StoreDiscipline`,
  `StoreAdmissible`, `StoreTheorems`, `StoreOnce`, `StorePaths`, `StoreConsumption`, `StoreRefunds`,
  `StoreCancel`, `StoreCancelView`, `StoreMessages`, `StoreSummaries`, `StoreLimits`, `StoreReachable`,
  `StorePlacing`, `StoreStations`, `StoreRefusals`, `StoreExamples`). `Store.Store` is the shop as the program drives
  it: tables updated in place, a ledger insert that checks `stock_sane` after every row, and
  transactions that roll back. Each method is tied to a transaction function on snapshots
  (`StoreModel`). Runs are sequences of those transactions in any order and by any number of
  processes, with `consume_for_item` a separate call that may be lost after the status commit.
* **The delivery protocols** (`EventRows`, `EventLoader`, `OutboxRelay`, `StoreDelivery`, `StoreWarehouse`). The stream loader with
  delivery, commit, acknowledgement, crash and redelivery as separate steps; any number of outbox
  relays locking rows at once; and shop and relays as one system, in which a committed transaction
  makes its message appear in the outbox, for the end-to-end statement from a payment to the
  warehouse's domain events.
* **The warehouse transformations** (`StgEvents`, `Sessions`, `Funnel`). Incremental against full
  refresh, window-function sessionization against the greedy grouping, the cumulative funnel.
* **Secret filling** (`GenSecrets`). The script that completes `deploy/.env`.

## What is assumed of the surroundings

Each theorem names the runs it is about and asks for no more discipline than it uses.

1. *Every run* (`StoreRuns.Run`): all transactions in any order, crashes, and raw SQL updates and
   deletes of order lines. No drift, sane balances, the append-only ledger and frozen history need
   nothing more.
2. *Application runs* (`StoreBooks.AppRun`): no raw SQL on order lines. Totals, rollups, refund sums,
   messages, stations and consumption need only this, whatever path a line takes and whether or not it
   was paid; the counts of consume or reserve rows further ask that no restock is written under that
   very reason, which neither caller of `restock_for_item` does (admin/views.py:133,151).
3. *Runs without a payment after a refund* (`StoreDiscipline.UnrepaidRun`): application runs in which
   `mark_paid` is not repeated once money went back. Payment announcements, reserve rows and the
   refund status need this.
4. *Admissible runs* (`StoreDiscipline.AdmissibleRun`): in addition, a line enters `printing` only
   while it is reserved, was consumed before, or is made of nothing, and a restock waits for a consume
   call in flight. The reservation sum, the promise and the cancel theorems need this.

The code enforces none of these three conditions: `advance_item` ignores payment and its table allows
`cancelled -> blocked -> printing`, and `mark_paid` is guarded by `<> 'paid'` only. `StoreLimits` states
what the same transactions do outside them: an unreserved line is consumed exactly when the
reservations at hand, other orders' included, cover it, and `reserved` is then short of the promises by
what it took. `StoreExamples` runs the shop from its opening into the states so reached, among them a
paid line whose consume is refused because an unpaid one printed first. Exactly when payments and
consumes commit is stated for every reachable state, raw edits included, in `StoreReachable`, and which
refunds, payments and raw edits are refused, and with what error, in `StoreRefusals`.

Each `with tx(...)` block (db/conn.py:67-82) is one atomic step. The bill of materials does not change
during a run: nothing in the application edits it after seeding. `on_hand` and `reserved` are 32-bit
columns and their overflow is modelled, which is why a restock of consumed stock needs room to put it
back; sums of cents are unbounded.

## Where the code and its documentation disagree

* docs/RUNBOOK.md:42 calls `mark_paid` idempotent on the order. A call changes nothing exactly when
  the order is missing, its status is `paid`, or some component cannot cover the order's demand
  (`StoreLimits.ReplayIsNoOpIff`). After a partial or full refund a replay with stock at hand reserves
  and announces a second time (`StoreLimits.ReplayAfterRefundReservesAgain`), and a run from an empty
  shop reaches that (`StoreExamples.ReplayAfterRefundHappens`).
* `reprice` is documented as called before checkout (web/carts.py:115), but nothing calls it, so the
  page and the charge agree exactly when the lines' price gaps cancel (`Pricing.ShownIsChargedIff`,
  `Pricing.StaleCartShowsTooLittle`).
* "Consumption happens exactly once, when the item first reaches 'printing'" (db/repo/admin.py:257)
  holds in every application run for a line that enters `printing`, once its call has completed
  (`StoreConsumption.ConsumedExactlyIfEntered`). But a line can be past `printing` without having
  entered it: a legal move keeps "past printing means consumed, on its way or lost" exactly when it is
  not an unblocking past `printing` of a line not accounted for yet (`StorePaths.MoveKeepsTrustIff`),
  and a paid line gets there in two legal moves (`StoreExamples.PrintedWithoutConsuming`).
* "Cancel or return: put the components back" (web/orders.py:200): a restock of a line that holds
  nothing, because it was never paid or was restocked before, is refused by `ledger_moves_something`
  and raises (`StorePhases.RestockCommitsIff`). The cancel view's loop finishes exactly when every line
  is reserved, consumed or made of nothing and what comes back fits
  (`StoreCancelView.CancelViewFinishesIff`); for an order nobody paid it raises
  (`StoreExamples.CancellingAnUnpaidOrderRaises`), and then the cancellation has committed, the lines before
  the first refused one are put back and the rest are not (`StoreCancelView.RestockAllStops`).
* scripts/gen_secrets.py promises to fill any missing secret. A line that is only the key's name,
  with no `=`, counts as present, so that key is never generated (`GenSecrets.SetAfterRunIff`; on a file
  that is one such line, `GenSecrets.BareKeyIsNeverFilled`).
* The late-arrival window is compared with `>`: an event exactly the window older than the newest
  staged one is dropped until a full refresh (`StgEvents.WindowIsOpen`).

## Model

| member | source | states |
|---|---|---|
| Inventory.ApplyMovesByTotals | db/migrations/20260805000006_ops_inventory.sql:51-64 | a statement the trigger accepts moves every cached balance by exactly the statement's ledger sums, and sane balances stay sane |
| Inventory.CheckPerRowIsCheckAtEnd | db/migrations/20260805000006_ops_inventory.sql:18-64 | for rows moving one way, the check after every single row refuses exactly what one check at the end would |
| Inventory.InsertSucceedsIff | db/migrations/20260805000006_ops_inventory.sql:18-64 | such an insert commits iff every component's final balance is sane |
| Inventory.RowOrderIrrelevant | web/orders.py:159-168 | neither success nor the resulting balances depend on the order in which the insert-select emits its rows |
| Inventory.BuildableIsTight | db/migrations/20260805000006_ops_inventory.sql:92-98 | `buildable` is the largest n whose bill of materials fits the available stock of every component |
| Inventory.BuildableIsExact | db/migrations/20260805000006_ops_inventory.sql:92-98 | reserving one line of n pieces commits iff n <= `buildable` |
| Pricing.ComputeCartTotals | web/pricing.py:53-76 | the loop returns the subtotal and quantity of the lines, and from three pieces on a tenth of the subtotal as discount, rounded to the nearest even cent |
| Pricing.PriceLines | web/orders.py:65-87 | the loop keeps exactly the cart lines whose variant exists, in order, each with its catalogue row and charged the sale price if there is one other than 0, else the list price, plus the surcharge of a known theme |
| Pricing.PriceOrder | web/orders.py:65-90 | the same lines and charges, and the bundle discount on their subtotal for the quantity of the whole cart |
| Pricing.ShownIsChargedIff | web/pricing.py:53-76 | subtotal, discount and total shown equal those charged iff the lines' price gaps cancel |
| Pricing.RepricedCartShowsTheCharge | web/carts.py:114-133 | after `reprice`, with every variant resolving, shown and charged agree in all three figures |
| Pricing.StaleCartShowsTooLittle | web/orders.py:83-86 | without `reprice` the page can show less than the charge |
| Pricing.RoundIsNearestEven | web/pricing.py:67-69 | the rounded value is the only nearest integer, even on a tie (roundTiesToEven, section 4.3.1 of IEEE 754-2019) |
| Pricing.DiscountBounds | web/orders.py:90 | 0 <= discount <= subtotal; none below three pieces, else within half a cent of a tenth, the even cent on a tie |
| Pricing.TotalMonotone | web/orders.py:89-90 | within one quantity tier the total is nondecreasing in the subtotal |
| Pricing.ThirdPosterCanLowerTheTotal | web/orders.py:89-90 | across the tier boundary it is not |
| Carts.UpsertSaturates | web/carts.py:67-78 | the upserted line keeps its place and holds min(old + added, 25) at the new price |
| Carts.UpsertKeepsTheRest | web/carts.py:67-78 | no other line changes, and lines stay unique per variant and theme, within 1..25 |
| Carts.SaturationIsMinOfSum | web/carts.py:71-75 | clamping after each addition is clamping the sum once, so the order of additions is irrelevant |
| Carts.UpsertMovesTheFigures | web/carts.py:67-78 | an upsert raises the item count of the cart totals by min(added, 25 - held), and the subtotal by the line's new worth less its old one |
| Carts.Cart.Add | web/carts.py:56-79 | no stored cart or no live variant: nothing happens; otherwise refused iff the proposed row fails a check or a new line's theme does not exist, and else the cart is the upsert of the old one |
| Carts.Cart.UpdateByIndex | web/carts.py:82-101 | exactly the line at that position is clamped or removed; an index outside the list changes nothing |
| Carts.Cart.Reprice | web/carts.py:114-133 | every line whose variant exists is left at the sale price if there is one other than 0, else the list price, plus the surcharge of a known theme; quantities, keys and other lines stay |
| StoreBooks.LeastAdvancedIsLeast | db/migrations/20260805000005_store_orders_carts.sql:203-224 | the rollup is the least station of a non-cancelled line, None iff there is no such line |
| StoreBooks.LinesAreTheOrdersItems | db/migrations/20260805000005_store_orders_carts.sql:104-123 | the ascending list of an order's lines holds exactly the rows that reference it |
| StoreRuns.NeverDrifts | db/migrations/20260805000006_ops_inventory.sql:51-89 | in every run: caches equal ledger sums, 0 <= reserved <= on_hand, and earlier ledgers are prefixes of later ones |
| StoreRuns.HistoryFreezes | db/migrations/20260805000005_store_orders_carts.sql:172-201 | in every run: an order that left `unpaid` never returns, its lines stay and their financial fields never change |
| StoreRefusals.RawUpdateCommitsIff | db/migrations/20260805000005_store_orders_carts.sql:172-201 | in every reachable state a raw update of a line is refused by the trigger iff the order is not unpaid and a money column changes, and commits iff moreover the checks and the order reference hold |
| StoreRefusals.RawDeleteCommitsIff | db/migrations/20260805000005_store_orders_carts.sql:172-201 | in every reachable state a raw delete commits iff the order is unpaid and no refund or ledger row names the line |
| StoreBooks.StepKeepsBooks | web/orders.py:65-125 | every application step keeps subtotal = sum of qty times unit, total = subtotal - discount, and the rollup |
| StoreBooks.StepKeepsRefunds | db/repo/admin.py:195-222 | every application step keeps refunded_cents and refunded_qty equal to the sums over the refund rows, and refunded_qty within qty |
| StoreBooks.BooksAlwaysBalance | web/orders.py:48-134 | in every application run all of that holds and every order has exactly one `order.placed` row |
| StorePlacing.PlaceOrderCommitsIff | web/orders.py:60-134 | an order is placed iff the cart exists and every kept line has a positive quantity and no negative charge; the new ids then carry the kept cart lines in order (variant, quantity, theme; the catalogue's sku, name, attributes, cost; the charged price), with the order row and one message to match |
| StorePlacing.PayingReservesTheCart | web/orders.py:106-168 | from cart to ledger: for a cart placed in any reachable state and any application run after it, paying the order commits iff the sum over kept cart lines of the need of the line's own variant and quantity is in stock, and raises each component's `reserved` by exactly that sum |
| StorePhases.HistoryTotals | web/orders.py:180-221 | per component, a line's rows sum to (0,0), (0,need) or (-need,0) by its phase |
| StorePhases.HistoryNet | web/orders.py:201-207 | the two signs `restock_for_item` looks at tell reserved from consumed from neither |
| StorePhases.ReservedIsOutstanding | db/migrations/20260805000006_ops_inventory.sql:11-20 | cached `reserved` is the sum of the needs of all lines now reserved |
| StorePhases.ReservationIsAPromise | web/orders.py:180-196 | consuming a reserved line cannot violate `stock_sane` |
| StorePhases.RestockCommitsIff | web/orders.py:199-221 | a restock commits iff the bill of materials is empty, the line is reserved, or it is consumed and what returns fits the column |
| StoreAdmissible.PaymentSucceedsIff | web/orders.py:146-173 | payment commits iff, for every component, the demand summed over all the order's lines is at most on_hand - reserved |
| StoreAdmissible.OneLinePaymentIsBuildable | web/orders.py:158-173 | for a one-line order that is exactly qty <= `buildable` |
| StoreReachable.SoundAlways | db/migrations/20260805000006_ops_inventory.sql:5-64 | in every run, raw edits included, keys, quantities, bill of materials and caches stay sound |
| StoreReachable.PaymentCommitsIff | web/orders.py:146-173 | in every reachable state an order not `paid` can be paid iff the stock at hand covers the demand of all its lines, and a `mark_paid` call changes nothing iff the order is missing, `paid` or not covered |
| StoreRefusals.UncoveredPaymentRaises | web/orders.py:158-173 | in every reachable state a payment of an order not `paid` and not covered raises OutOfStock, except that it is a width error iff some row, or the first short row's sum, does not fit 32 bits |
| StoreRefusals.SoldOutPaymentRaises | web/orders.py:169-173 | in particular it raises OutOfStock whenever reserved plus demand fits 32 bits for every component |
| StoreReachable.OneLineCoveredIff | db/migrations/20260805000006_ops_inventory.sql:92-98 | in every reachable state, for a one-line order covered means qty <= `buildable` |
| StoreReachable.ConsumeCommitsIff | web/orders.py:180-196 | in every reachable state a consume commits iff it is a repeat or the reservations at hand, for whomever, cover the line |
| StoreAdmissible.PaymentMovesToHeld | web/orders.py:146-177 | a committed payment reserves every line of the order and moves no other line |
| StoreAdmissible.ConsumeMovesToUsed | web/orders.py:180-196 | a consume of a reserved line commits, moves it to consumed and moves no other line; a repeat changes no phase |
| StoreAdmissible.RestockMovesBack | web/orders.py:199-221 | a committed restock undoes whichever step happened to that line and moves no other line |
| StoreAdmissible.AdjustCommitsIff | db/repo/admin.py:334-340 | an adjustment commits iff it is nonzero, fits the column and leaves every reservation covered; it appends one row, moves one component's on_hand by delta and nothing else |
| StoreTheorems.StepKeepsInv | web/orders.py:141-221 | every admissible step keeps each line on one of five ledger histories and moves it only along reserve, consume, put back |
| StoreTheorems.ReservedIsTheSumOfPromises | db/migrations/20260805000006_ops_inventory.sql:11-20 | in every admissible run `reserved` is the sum of outstanding needs over all orders |
| StoreTheorems.ConsumeInFlightCommits | db/repo/admin.py:285-286 | in every admissible run, a consume call in flight can commit, whatever other orders did in between |
| StoreTheorems.LineIsInOnePhase | web/orders.py:158-221 | in every admissible run a line is in the same phase for every component of its bill of materials |
| StoreOnce.ConsumedAtMostOnce | web/orders.py:192-193 | over every application run, unpaid and unblocked lines included, a line has no consume row or exactly one per component |
| StoreOnce.PaidExactlyOnce | web/orders.py:146-177 | without a payment after a refund, an order ever paid has one `order.paid` row and one reserve row per line and component; an order never paid has none |
| StoreRefunds.RefundsDecideStatus | db/repo/admin.py:195-222 | without a payment after a refund, the status is refunded iff the refunds reach the total, and the stored sums are those of the refund rows |
| StoreRefunds.RefundOrderIrrelevant | db/repo/admin.py:199-218 | neither the amounts per order nor the quantities per line depend on the order of the refunds |
| StoreRefusals.RefundCommitsIff | db/repo/admin.py:195-222 | in every state the application reaches a refund commits iff the amount is positive, order and named line exist, and with a nonzero quantity the line's refund rows plus this one lie within 0..qty; a committed one appends its row and message and moves the counters and status by it, a refused one changes nothing |
| StoreCancel.SettledForever | web/orders.py:199-221 | a line that was put back is never moved again |
| StoreCancel.CancelIsAnInverse | admin/views.py:130-133 | with any interleaved admissible steps, every restock of the loop commits and each line's net effect is zero for every component |
| StoreCancel.CancellingAPaidOrderUndoesIt | admin/views.py:121-134 | the same for every paid order an admissible run reaches |
| StoreCancelView.RestockAllSucceedsIff | admin/views.py:130-133 | the loop finishes iff every line is reserved, consumed or made of nothing and all that comes back fits its column |
| StoreCancelView.RestockAllStops | admin/views.py:130-133 | wherever the loop stops, the lines before the refused one are put back, the others stand where they stood, and the error is that restock's |
| StoreCancelView.CancelViewFinishesIff | admin/views.py:121-134 | the same condition, read off any reachable state before the cancellation |
| StoreCancelView.CancelViewUndoesTheOrder | admin/views.py:121-134 | for a paid order never restocked, with room for what returns, the view ends without error and every line nets to zero |
| StoreExamples.CancellingAnUnpaidOrderRaises | admin/views.py:121-134 | a run from an empty shop to an unpaid order whose cancellation with restock commits and then raises |
| StoreLimits.ReplayIsNoOpIff | web/orders.py:146-173 | a `mark_paid` call leaves the database unchanged iff the order is missing, `paid`, or some component cannot cover its demand |
| StoreExamples.ReplayAfterRefundHappens | web/orders.py:146-177 | a run from an empty shop (receive, place, pay, refund, pay) ends with two paid announcements and twice the reservation |
| StoreLimits.ReplayAfterRefundReservesAgain | web/orders.py:147-177 | a replay after a refund that commits announces and reserves again |
| StoreLimits.ConsumeKeepsPhasesIff | db/repo/admin.py:270-286 | a consume keeps the line invariant iff the line is reserved, was consumed before, or is made of nothing |
| StoreLimits.UnpromisedConsumeLeavesTheScript | db/repo/admin.py:270-286 | any other consume that commits puts the line on none of the five histories |
| StoreLimits.ConsumeCommitsIffCovered | web/orders.py:180-196 | a first consume commits iff what is reserved, for whomever, covers what the line needs of every component |
| StoreLimits.UnpromisedConsumeTakesPromises | web/orders.py:180-196 | after a consume of an unreserved line, `reserved` is the outstanding needs less what that line took |
| StoreExamples.UnpaidPrintingBreaksAPromise | db/repo/admin.py:254-287 | a run from an empty shop in which an unpaid line prints first and the paid line's consume is refused and lost |
| StorePaths.PrintedMeansConsumed | db/repo/admin.py:269-286 | in every application run, a line at `printing` or later, never unblocked past `printing`, whose call completed, has its consume rows, however often it was blocked |
| StorePaths.MoveKeepsTrustIff | db/repo/admin.py:269-286 | a legal move keeps "past printing means consumed, on its way or lost" iff it does not unblock an unaccounted line past `printing` |
| StoreStations.MoveCommitsIff | db/repo/admin.py:261-283 | a move of a line commits iff the target follows in the station list, or is blocked, cancelled or reprint, or the line is blocked and the target is any station of the list, or it is at reprint and the target is printing; it changes that line's station and its order's rollup only |
| StoreStations.OneStationAtATime | db/repo/admin.py:229-230 | between two stations of the list a move commits iff the target's index is one more |
| StoreStations.LineWentThroughEveryStation | db/repo/admin.py:254-287 | in every application run a line at a station of the list that was never blocked or sent to reprint was moved to every earlier one, once each and in order, and nowhere else |
| StoreStations.PackedWentThroughEveryStation | db/repo/admin.py:254-287 | so a packed one was printing, printed, mounting, framing, qc, packed |
| StoreStations.RollupIsFirstDeclared | db/migrations/20260805000002_enums.sql:17-20 | the rollup is the station of a live line, and no live line stands at one the enum declares before it |
| StoreConsumption.ConsumedExactlyIfEntered | db/repo/admin.py:254-287 | in every application run, a line whose call completed has exactly one consume row per component if it ever entered `printing`, and none otherwise |
| StoreConsumption.PhaseFollowsTheBoard | db/repo/admin.py:254-287 | in every admissible run, a line whose call completed is consumed or returned iff it ever entered `printing`, and never reserved iff its order was never paid |
| StoreExamples.PrintedWithoutConsuming | db/repo/admin.py:270-276 | a run from an empty shop ends with a paid line at `printed`, nothing consumed, no call in flight and none lost |
| StoreMessages.MessagesAreTrue | web/orders.py:131-177 | in every application run placed and paid messages carry the order's total, a paid message names a paid order, and refund messages sum to refunded_cents |
| StoreSummaries.CancelStopsTheLines | db/repo/admin.py:184-188 | after a cancellation the order's lines are packed or cancelled, and no other line moved |
| StoreSummaries.CancelLeavesOnlyPacked | db/migrations/20260805000005_store_orders_carts.sql:203-226 | the rollup of a cancelled order is packed if it has a packed line and null otherwise |
| StoreSummaries.CancelFlagsAndAnnounces | db/repo/admin.py:177-192 | a cancellation flags the order if there is one, appends one message, and leaves other orders, amounts, payments, refunds and the ledger alone |
| StoreSummaries.CancelledIsAnnounced | db/repo/admin.py:177-192 | in every run an order flagged cancelled has an `order.cancelled` row |
| Store.Store.constructor | db/migrations/20260805000006_ops_inventory.sql:5-31 | a migrated shop is an initial state of the runs |
| Store.Store.InsertLedger | db/migrations/20260805000006_ops_inventory.sql:36-64 | the in-place insert, checked after each row, yields the same tables or error as the whole-statement function |
| Store.Store.RollUpProduction | db/migrations/20260805000005_store_orders_carts.sql:208-226 | the trigger's scan sets exactly the order's rollup to the least station |
| Store.Store.PlaceOrder | web/orders.py:48-134 | commits iff the cart exists and can be charged, and then writes the lines, order and message as the cart and catalogue say; otherwise nothing changes |
| Store.Store.InsertOrder | web/orders.py:92-134 | inserting the priced lines one by one, each with its rollup trigger, leaves the placed order, its new ids carrying each line's variant, quantity, theme, price and snapshots |
| Store.Store.MarkPaid | web/orders.py:146-177 | status, ledger, balances and message change together or not at all |
| Store.Store.ConsumeForItem | web/orders.py:180-196 | the consume transaction commits its function's result or changes nothing |
| Store.Store.RestockForItem | web/orders.py:199-221 | the restock transaction commits its function's result or changes nothing |
| Store.Store.AdvanceItem | db/repo/admin.py:254-287 | a missing line and a move the board does not allow are refused with nothing changed; an allowed status commits first and stays when the consume after it fails |
| Store.Store.CancelItems | db/repo/admin.py:184-188 | exactly the order's lines that are not packed become cancelled |
| Store.Store.CancelOrder | db/repo/admin.py:177-192 | flag, stations, rollup and message as the cancellation function leaves them, for a missing order too |
| Store.Store.Cancel | admin/views.py:121-134 | the cancellation commits, then one restock per line, stopping at the first that raises |
| Store.Store.Refund | db/repo/admin.py:195-222 | while the counters agree with the refund rows it commits iff refundable, with row, counters, status and message all moved by it, and otherwise changes nothing |
| Store.Store.AdjustStock | db/repo/admin.py:334-340 | an adjustment is one ledger row, or nothing |
| Store.Store.LedgerDrift | db/migrations/20260805000006_ops_inventory.sql:78-89 | returns exactly the components whose cache disagrees, hence nothing in any reachable state |
| StoreDelivery.EventsBalanceRows | worker/main.py:145-159 | for every topic and order, domain events and published outbox rows are equally many |
| StoreDelivery.DeliveredAtMostAnnounced | worker/main.py:145-159 | in every relay run the warehouse has at most as many events of a kind as were announced, and as many once drained |
| StoreWarehouse.RunKeepsMirror | web/orders.py:26-30 | in every run of shop, webhooks and relays together, the shop's outbox rows are exactly the messages of its committed transactions |
| StoreWarehouse.WarehouseSeesEachFactOnce | web/orders.py:131-177 | end to end, in every such run: the warehouse never sees an order placed twice and once drained sees it exactly once; the same for payments when none follows a refund |
| EventRows.ConflictIff | worker/main.py:99-103 | two entries conflict iff their event_id fields agree up to case and their occurred_at fields are equal |
| EventRows.CompleteIsStorable | db/migrations/20260805000007_raw_events_meta.sql:3-20 | an entry can be stored iff event_id, occurred_at, session_id, visitor_hash, name and props are present and not empty |
| EventLoader.StoreAllKeys | worker/main.py:99-103 | after an insert the keys are the old ones plus the batch's, and no stored row changed |
| EventLoader.StoreAllFirst | worker/main.py:99-103 | a new key holds the first row the batch had for it |
| EventLoader.InsertedIsGrowth | worker/main.py:99-104 | the returned count is the growth of the table |
| EventLoader.OrderIrrelevant | worker/main.py:84-104 | when retries carry the same row, neither order nor repetition of rows matters |
| EventLoader.Events.LoadBatch | worker/main.py:78-104 | the batch aborts whole iff some entry lacks a required field, does not cast or has no partition; otherwise every entry's event has exactly one row, and a batch of new, distinct events is counted in full, each found with its own field values |
| EventLoader.ExactlyOnce | worker/main.py:107-127 | in every run: each acknowledged or committed entry has exactly one stored row with its event id (up to case) and time, each stored row holds the fields of a committed entry, the table is the sequential replay of the batches and the counts add up to its size |
| EventLoader.NewEventsAreCounted | worker/main.py:99-104 | in every reachable state a batch of new, distinct events commits with a count of all of them, and each is found with its own field values |
| EventLoader.DeliveredBatchGetsThrough | worker/main.py:118-127 | in every reachable state entries with all required fields, delivered to a free worker, loaded and acknowledged, end acknowledged and stored exactly once |
| EventLoader.ReplayReturnsZero | worker/main.py:118-120 | redelivering a committed batch, however late, stores nothing and returns 0 |
| EventLoader.StoredRowsStay | worker/main.py:99-103 | in every run the table only grows and no row is replaced |
| EventLoader.PoisonIsNeverCommitted | worker/main.py:112-127 | an entry lacking a required field is never acknowledged, nor is any batch holding it committed |
| EventLoader.InterleavingIrrelevant | worker/main.py:107-127 | two runs that committed the same entries end with the same table |
| OutboxRelay.Relay.Once | worker/main.py:145-159 | one pass publishes and copies exactly the first 500 unpublished rows (all, if fewer) in id order and returns their number |
| OutboxRelay.RelayAllEffect | worker/main.py:152-158 | a batch publishes exactly its rows and appends exactly their events, in order |
| OutboxRelay.RoundsPublishInOrder | worker/main.py:145-159 | after k rounds with no new rows, exactly the first 500k pending rows are published |
| OutboxRelay.DrainsInCeil | worker/main.py:145-159 | the outbox is drained after k rounds iff k >= ceil(n/500) |
| OutboxRelay.HandledIsGood | worker/main.py:152-158 | the insert of a locked row never conflicts, so each handled row stages its own event |
| OutboxRelay.CommitIsSequential | worker/main.py:145-159 | committing among other open relays has the effect of running that batch alone |
| OutboxRelay.RelaysDeliverExactlyOnce | worker/main.py:145-159 | in every run of any number of relays, locks are disjoint and a row is published iff exactly one event has its id, with its content |
| OutboxRelay.NothingIsUndone | db/migrations/20260805000007_raw_events_meta.sql:81-110 | domain events only grow at the end; rows keep their content and stay published |
| StgEvents.RunKeepsSound | dbt/models/staging/stg_events.sql:6-33 | through any arrivals and runs every staged row stays the projection of its raw row |
| StgEvents.StagedRowsAreProjections | dbt/models/staging/stg_events.sql:6-27 | column by column: path null when empty, device, browser and os defaulting to unknown, utm_source to direct, the version to 1, the other columns as they are |
| StgEvents.IncrementalIsFullIff | dbt/models/staging/stg_events.sql:30-33 | an incremental run equals a full refresh iff no unstaged row lies outside the window |
| StgEvents.MissedForever | dbt/models/staging/stg_events.sql:30-33 | a row missed by a nonempty table is missed by every later incremental run |
| StgEvents.FullRefreshRestores | dbt/models/staging/stg_events.sql:1-33 | a full refresh restores everything, after any run |
| StgEvents.IncrementalRunsAreFullIff | dbt/models/staging/stg_events.sql:30-33 | from a nonempty table, through any arrivals and incremental runs, the table is complete after the last run iff every row was in time for the run that first saw it |
| StgEvents.InTimeIsEnough | dbt/models/staging/stg_events.sql:30-33 | from any table or none, full refreshes included, rows in time leave the table complete after the last run |
| StgEvents.BoundedLatenessIsEnough | dbt/dbt_project.yml:24-28 | if every event arrives less than the window after the newest raw event, every run leaves a complete table |
| StgEvents.FreshWarehouseIsComplete | dbt/dbt_project.yml:24-28 | in particular from an empty warehouse on |
| StgEvents.EmptyTableSelectsSince2000 | dbt/models/staging/stg_events.sql:31-32 | a table without rows takes a new event iff it is later than three hours before 2000-01-01 |
| StgEvents.WindowIsOpen | dbt/models/staging/stg_events.sql:31 | a row exactly three hours old is missed, a row one second newer is staged |
| Sessions.NumbersRunFromOne | dbt/models/staging/stg_sessions.sql:27-33 | session numbers lie between 1 and the last event's number |
| Sessions.WindowIsGreedy | dbt/models/staging/stg_sessions.sql:11-33 | grouping by the running sum is the greedy one-pass grouping |
| Sessions.SessionizationIsUnique | dbt/models/staging/stg_sessions.sql:1-10 | only one grouping has all inner gaps at most 30 minutes and all boundary gaps larger |
| Sessions.SessionsAreTheSessionization | dbt/models/staging/stg_sessions.sql:11-33 | a grouping is the model's iff it partitions the events with such gaps |
| Sessions.SeqCountsStarts | dbt/models/staging/stg_sessions.sql:27-33 | session_seq is the number of session starts up to the event's time, with no order involved |
| Sessions.ArrivalOrderIrrelevant | dbt/models/staging/stg_sessions.sql:11-33 | arrival order and ties change no event's number and no session's events |
| Sessions.RowsCoverTheVisit | dbt/models/staging/stg_sessions.sql:44-75 | event counts add up to the events, and a session starts more than 30 minutes after the previous one ended |
| Sessions.RowsReadTheirEvents | dbt/models/staging/stg_sessions.sql:44-75 | a session row spans exactly the times of the events with its number, and a flag is set iff one of them has that name |
| Funnel.FunnelIsMonotone | dbt/models/intermediate/int_funnel_steps.sql:18-26 | for every list of sessions each step's sum is at most the previous one's |
| Funnel.GroupsConserve | dbt/models/marts/mart_funnel_daily.sql:2-13 | for every grouping, the groups' rows sum to the overall row |
| Funnel.PanelAgreesWithMart | db/repo/analytics.py:128-141 | the panel's filtered counts equal the mart's summed flags |
| Funnel.Report | db/repo/analytics.py:142-159 | the loop gives each bar its value, its share of the top rounded to one decimal and its drop from the bar before; no row gives no bars |
| Funnel.ReportConserves | db/repo/analytics.py:144-159 | drops are nonnegative, percentages lie in 0..100, and the drops plus bought equal landed |
| GenSecrets.LinesRoundTrip | scripts/gen_secrets.py:68 | written lines read back as themselves |
| GenSecrets.FillBlanks | scripts/gen_secrets.py:45-58 | the in-place loop fills exactly the blank entries of known keys and counts the kept ones |
| GenSecrets.EnvFile.Run | scripts/gen_secrets.py:40-73 | the file after a run, the count kept and the keys generated; an unchanged file is not written |
| GenSecrets.UntouchedLinesStay | scripts/gen_secrets.py:46-58 | every line keeps its index and key, and its text unless it is a blank entry of a known key |
| GenSecrets.SetKeysKeepTheirValue | scripts/gen_secrets.py:51-52 | a key whose last-wins value is nonblank keeps it |
| GenSecrets.UnknownKeysKeepTheirValue | scripts/gen_secrets.py:49-50 | other keys keep their value or absence |
| GenSecrets.SetAfterRunIff | scripts/gen_secrets.py:46-67 | a known key has a value afterwards iff an entry for it existed or no line mentioned it |
| GenSecrets.BareKeyIsNeverFilled | scripts/gen_secrets.py:47-61 | a file whose one line is a bare known key leaves that key without a value, whatever is drawn |
| GenSecrets.NoNewDuplicates | scripts/gen_secrets.py:53-67 | the number of lines for a key changes only from none to one, and only for known keys |
| GenSecrets.FileHoldsUpdate | scripts/gen_secrets.py:42-68 | reading the file back after a run gives exactly the updated lines |
| GenSecrets.SecondRunChangesNothing | scripts/gen_secrets.py:42-68 | a second run, whatever it would draw, leaves the file as it is |
| GenSecrets.ScriptIsSafe | scripts/gen_secrets.py:30-68 | for any file and the script's own six keys: set values are kept, no key gets a second line, and a known key has a value afterwards under exactly that condition |

## Left out

- Interleavings inside a transaction: two `consume_for_item` calls for one line that both pass `not exists` before either commits, and lock waits between payments, are not modelled; each transaction is atomic.
- Raw edits in the phase theorems: admissible runs contain no SQL outside the application, and the bill of materials and the variant of a line are fixed while it is reserved.
- StoreModel.EditItem: models an update that names every column, so its rollup trigger fires; an update that does not name production_status would leave the rollup alone.
- StoreRefusals.RefundCommitsIff: quantities are unbounded; one that does not fit `refunds.qty`, a 32-bit column, is refused by the code too, under a width error instead of the check's.
- Width of `bigint` cents: sums of cents are unbounded integers, and dollar values at the boundary (division by 100, formatting) are not modelled.
- Timestamps, actors, notes, reasons as free text, order numbers, public ids, customers, shipping addresses, cart state and shipments: stored and never read back by the modelled logic.
- The payment gateway call after `place_order` commits, the Stripe webhook, and deduplication of its `stripe.*` rows, which the outbox has no key for; they appear only as `External` messages.
- `config_price_cents` and `normalize_config`: table look-ups on the storefront's configuration form.
- Liveness of the loader: reading with `>` never returns pending entries and the result of the claim is discarded, so the code does not decide that every entry is eventually loaded; redelivery is a possible step only.
- EventLoader.Events.LoadBatch: which cells cast and which times have a partition is a parameter; ids compare without regard to case, and times as the text the collector writes, one per instant.
- Carts.Cart.Add: the lookup of the live variant is a parameter.
- Stream trimming and the 25-month partition drop: no completeness is claimed over them, and `StgEvents` has no step that removes raw rows.
- StgEvents.StagedRowsAreProjections: `received_at` and the hex text of `visitor_hash` are not modelled; 2000-01-01 is read in UTC.
- The order in which the two window functions of stg_sessions break ties is assumed to be the same; a different order in the second one could split a tie across sessions.
- Engagement columns, paths and device attributes of a session row: plain aggregates.
- Funnel.Report: leaves open which way a tie is rounded and the last bit of the floating-point quotient.
- Carriage returns inside a line: text mode turns them into line feeds before the script sees them.
- The other marts, carts abandoned by the sweep, the admin login, and the exporters: plain aggregates or single-branch checks.
