# Transactional cores of the commerce API, modelled and proved

The commerce API keeps four transactional state machines whose promises have to hold over whole runs:
the stock ledger with its reservations, the dispatch of couriers through an outside provider, the
variant matrix of a product, and the outbox. This project models them, and the parts that build on
them (ticket lots, promotions that end on a sell-out, coupons, the balance locks and the ledger
audit), in Dafny, and proves those promises.

Every component has the same three layers. A value-level specification says what one database
transaction does to the tables. A class updates the same tables in place, loop by loop as the service
does, and each of its methods is proved to take exactly the specified step. The main results are
lemmas over the specification: over one step where the property is about one step, and over all runs,
in any order and by any number of orders, workers or tasks, where it is about reachable states. Beside
the specifications the `Effects` modules say the same a second time without them, on the rows: exactly
when an operation is accepted, and what every field holds before and after it. The methods ensure these
relations, and every step of every run is proved to obey them. Each
transaction is one atomic step, except where what it read before matters: a task of the outbox, a
consumer of a sold-out event and a courier worker read, work and commit in separate steps.

| files | what they hold |
|---|---|
| `Common.dfy` | optional values, sums over finite maps, ascending listings |
| `Stock.dfy`, `StockBooks.dfy`, `StockRuns.dfy`, `StockSafety.dfy`, `StockLimits.dfy`, `Inventory.dfy` | balances, reservations, the ledger: the steps, the books they keep, runs, overselling and returns, what is not promised, the service class |
| `StockEffects.dfy`, `AdjustEffects.dfy` | what each stock operation writes, books and announces; when an adjustment is accepted; every step of a run |
| `LedgerAudit.dfy`, `Locks.dfy` | the paged ledger audit; balance locks taken in ascending order |
| `Promotions.dfy`, `PromotionRuns.dfy` | promotions that end on a sell-out: the product row, and sales and consumers interleaved |
| `Lots.dfy`, `LotEffects.dfy`, `EventService.dfy` | ticket lots on top of the stock, when they may be added, edited and removed, and their class |
| `CourierRow.dfy`, `CourierService.dfy`, `CourierProtocol.dfy`, `CourierEffects.dfy` | the courier row, its class and table, the protocol between workers and the provider, what each transaction writes on the row |
| `CourierInvariant.dfy`, `CourierLanding.dfy`, `CourierLease.dfy`, `CourierSafety.dfy`, `CourierFees.dfy`, `CourierSweeps.dfy`, `CourierSettled.dfy`, `CourierLimits.dfy` | what holds with any provider; when a create request may land; what the lease gives; caps, coherence and fencing; what a courier may cost; sweeps; rows past dispatch; the exact limits of the promises |
| `VariantMatrix.dfy`, `VariantPlan.dfy`, `VariantRuns.dfy`, `VariantEffects.dfy`, `VariantService.dfy` | the matrix, the plan that reuses variants, identity over runs, when options are saved and what becomes of each variant, the class |
| `Outbox.dfy`, `OutboxRuns.dfy`, `OutboxLimits.dfy`, `OutboxEffects.dfy`, `OutboxService.dfy` | the outbox tables, runs with duplicated, late and failing tasks, what is not promised, what each transaction writes, the class |
| `CouponRules.dfy`, `Coupons.dfy` | what a coupon is worth; its counter and limits |

## What the proofs turned up

* **Courier: the lease alone does not prevent two couriers, and the idempotency key does not keep the
  one courier within reach.** A failed attempt is retried after 30 seconds while its lease runs for
  120, so a create request that its sender stopped waiting for can land after the next attempt has
  looked for it in vain. With a provider that takes no care the row then gets two couriers, even when
  the second attempt has long got and recorded its own (`ALateCreateMakesTwoCouriers`); with one that
  refuses a second delivery for the same key, which is the row's id, the first request's delivery is
  the only one but the row has forgotten its quote, and can even close as failed with that courier
  under way (`AKeyedDeliveryIsLost`). What matters is whether a request lands *overtaken*: its quote is
  not the row's any more, or a later attempt that holds the row has looked for an earlier delivery and
  is about to replace the quote. With any provider, one courier per row and one within reach is what a
  run gives as long as no request lands overtaken (`NeverTwoCouriers`, `EveryDeliveryIsReachable`). An
  overtaken landing always loses its delivery in some continuation (`ALandingStaysInReachExactly`), and
  doubles it in some, unless the row is past dispatch, had no delivery and waits for none
  (`ALandingStaysAloneExactly`). A provider that creates nothing once the sender's call returned or its
  lease ended never lets one land overtaken (`PromptRunsLandWell`).
* **Outbox: an event can read done over a delivery that failed, and can fail to read done at all.** A
  run counts the open deliveries before it commits. Two consumers that finish side by side each still
  count the other, and the event never reads done (`TwoCountsMissEachOther`,
  `ItNeverReadsDone`); such a count, or a retry by hand of what is finished, is the only way
  (`OnlyAMissedCountLeavesOpen`). Done itself is sound for the effects: every consumer's effect is
  committed (`DoneMeansEveryConsumerRan`).
* **Outbox: a delivery that is done can still go to the dead letters.** A task that read no processed
  mark before another run committed may fail afterwards, and its failure is counted on the delivery
  without looking at the mark again. The effect is still committed exactly once
  (`EffectsHappenOnce`), but "done" and "processed" part exactly when such a late failure is the
  eighth (`OnlyALateFailureParts`, `DoneMeansProcessed`). Every delivery that is still to be made can
  end that way (`ADeliveryCanFailThoughDone`), and a run that counted before the failure still marks
  the event done (`ADoneEventCanHoldAFailure`), which is the only way to read done over a delivery that
  is not (`OnlyAStaleCountMarksOverAFailure`, `DoneMeansDelivered`).
* **Outbox: retrying by hand an event that was not relayed yet skips its consumers, for good.** The
  retry marks it dispatched, and the relay never looks at it again. That is the only way a consumer is
  skipped (`OnlyAnEarlyRetrySkips`, `NoConsumerIsSkipped`), and it takes two steps from an empty outbox
  (`AnEventCanBeForgotten`, `AnEarlyRetryIsForGood`).
* **Outbox: the last entry of the backoff table is never used**: a delivery dies at its eighth failed
  attempt, so the longest wait is two hours (`BackoffIsBounded`, `NothingWaitsForever`).
* **Promotions: a sold-out event ends the promotion exactly if no consumer already at work on it read
  the shelves before they were empty** (`TheLastConsumerEndsIt`). The last sale's own event always
  does (`TheLastSaleEndsIt`, `NoSelloutIsMissed`). But an event consumed while the promotion is not
  running is used up, and a promotion armed, or armed again by an edit, over empty shelves can end
  without a restock only if some event still waits (`AnEventOutOfTimeIsTheLastChance`,
  `OnEmptyShelvesItEndsOnlyIfSomethingWaits`).
* **Stock: a physical count is the only operation that can leave less on the shelf than open orders
  hold**, and exactly when it finds less than what is reserved and less than was believed to be there
  (`ACountOversellsExactly`). A receipt, a hold and a count oversell by any amount, and the sale then
  takes the shelf below zero (`ACountCanOversell`).
* **Stock: the check of a late payment looks at one line at a time**, which is enough exactly because
  no variant is listed twice (`LineByLineIsEnoughWithoutRepeats`, `LatePaymentsAreCheckedInFull`).
* **Variants: going back to no options forgets one combination**, that of the variant at position zero;
  every other combination finds its variant again (`AResetForgetsOnlyTheFirst`).

## Model

| member | source | states |
|---|---|---|
| StockRuns.StockIsConserved | apps/api-commerce/app/inventory/reservations.py:40-211 | after any run from an empty store, what is on hand is the ledger total, and is what adjustments put in less what reservations have sold and not got back; what is reserved is what active reservations hold; the last movement carries the level |
| StockRuns.EveryRunKeepsBooks | apps/api-commerce/app/inventory/models.py:107-116 | every operation, in any order, keeps all balances explained by the ledger and the reservations, every movement's running total, and every line's quantities coherent |
| StockRuns.LedgerIsAppendOnly | apps/api-commerce/app/inventory/service.py:172-203 | over any stretch of any run movements are only added |
| StockRuns.CheckedLinesAreWellFormed | apps/api-commerce/app/inventory/service.py:107-123 | a request passes its checks if and only if it has a reason where one is needed and its lines are of distinct, known, tracked variants, in whole units, positive for receipts and losses, not zero for adjustments, not negative for counts, and priced only on receipts |
| StockSafety.OnlyACountOversells | apps/api-commerce/app/inventory/service.py:125-159 | no operation except a physical count makes the shortfall (reserved beyond on hand) of any variant grow |
| StockSafety.ACountOversellsExactly | apps/api-commerce/app/inventory/service.py:143-154 | a count is never refused, and makes a shortfall grow if and only if it finds less than is reserved and less than was on hand |
| StockLimits.ACountCanOversell | apps/api-commerce/app/inventory/service.py:143-154 | from an empty store a receipt, a reservation and a count oversell a variant by any amount, and the order's sale leaves the shelf that much below zero |
| StockSafety.NeverOversold | apps/api-commerce/app/inventory/service.py:125-159 | in every run whose counts find at least what is reserved, 0 <= reserved <= on hand for every variant |
| StockLimits.LineByLineIsEnoughWithoutRepeats | apps/api-commerce/app/inventory/reservations.py:108-121 | whatever is free, lines that fit one by one also fit together if and only if no variant is listed twice, which is what the unique key of the reservations gives |
| StockLimits.LatePaymentsAreCheckedInFull | apps/api-commerce/app/inventory/reservations.py:108-121 | the expired lines of an order that a late payment reads never repeat a variant, and so it is honoured if and only if they fit all together |
| StockSafety.RecoversExactlyWhatFits | apps/api-commerce/app/inventory/reservations.py:108-121 | a late payment is honoured if and only if all expired lines of the order fit on the shelf taken together |
| StockSafety.RecoverIsAllOrNothing | apps/api-commerce/app/inventory/reservations.py:108-144 | either every expired line is sold and its variant still covers what is reserved, or nothing at all changed |
| StockSafety.ReturnsPutBackWhatWasSold | apps/api-commerce/app/inventory/reservations.py:146-211 | any series of partial returns, whatever each asks for, closed by the full return puts back exactly what the line had sold |
| StockSafety.ACommittedLineHasSomethingLeft | apps/api-commerce/app/inventory/reservations.py:153-160 | in every reachable state a committed line has 0 <= returned < quantity, so the nothing-left branch of the full return is never taken |
| StockSafety.SelloutsAreAnnouncedExactly | apps/api-commerce/app/inventory/reservations.py:82-88 | an operation emits a variant's sold-out event if and only if it takes its shelf from above zero to zero or below, in the same transaction |
| InventoryService.Inventory.Reserve | apps/api-commerce/app/inventory/reservations.py:40-59 | holds the needs on new lines, or changes nothing when a line exists; keeps the books |
| InventoryService.Inventory.Commit | apps/api-commerce/app/inventory/reservations.py:61-89 | the order's active lines leave shelf and hold, with one movement each and the alerts; keeps the books |
| InventoryService.Inventory.Release | apps/api-commerce/app/inventory/reservations.py:91-106 | the order's active lines are freed as released or expired; keeps the books |
| InventoryService.Inventory.Recover | apps/api-commerce/app/inventory/reservations.py:108-144 | sells the order's expired lines when all fit and says so, otherwise leaves them; keeps the books |
| InventoryService.Inventory.ReturnStock | apps/api-commerce/app/inventory/reservations.py:146-169 | puts back what is left of the order's committed lines and closes them; keeps the books |
| InventoryService.Inventory.ReturnSome | apps/api-commerce/app/inventory/reservations.py:171-211 | puts back what is asked for, never more than a line still has, and reports what came back per variant; keeps the books |
| InventoryService.Inventory.Adjust | apps/api-commerce/app/inventory/service.py:107-262 | accepted if and only if the request is in order, no line's level falls below zero and no loss or adjustment takes what is reserved; then each shelf is at its kind's level, with one movement per line in line order and the alerts, and nothing else moves; a refusal names the first failing check, or all lines that fail, and changes nothing |
| AdjustEffects.StepsTakeEffect | apps/api-commerce/app/inventory/reservations.py:40-211 | every step of every run leaves the order's lines, their balances, the ledger and the alerts as its operation promises, field by field, and all other lines and balances alone |
| AdjustEffects.RequestsAreCheckedExactly | apps/api-commerce/app/inventory/service.py:108-118 | a request passes if and only if it has its reason and its lines are distinct, known and acceptable; otherwise the error names the first check that fails, and the first line it fails on |
| AdjustEffects.AdjustmentsAreAcceptedExactly | apps/api-commerce/app/inventory/service.py:120-159 | the balances accept a request if and only if no line falls short and no loss or adjustment takes held goods; a refusal lists exactly the lines that fall short, or else those that take held goods |
| InventoryService.Inventory.SetMinLevel | apps/api-commerce/app/inventory/service.py:276-294 | only the variant's minimum level changes; keeps the books |
| LedgerAudit.LedgerMismatches | apps/api-commerce/app/inventory/repository.py:140-177 | a page reports exactly the wrong balances among the next five hundred rows, and the cursor after them, or none when no row is left |
| LedgerAudit.AuditLedger | apps/api-commerce/app/inventory/service.py:353-365 | the loop over pages ends and counts every balance that differs from its ledger total exactly once |
| LedgerAudit.TheAuditsFindNothing | apps/api-commerce/app/inventory/service.py:332-350 | in every reachable state neither the ledger audit nor the reserved check finds anything |
| Locks.NoDeadlock | apps/api-commerce/app/inventory/repository.py:49-84 | among any number of transactions that lock their rows in ascending order there is never a circle in which each waits for the next |
| Locks.EveryoneCanFinish | apps/api-commerce/app/inventory/repository.py:54-56 | from every reachable state there is a way for all transactions to get their rows and end |
| Locks.SomeoneCanAdvance | apps/api-commerce/app/inventory/repository.py:54-56 | as long as a transaction is open, some transaction can take its next row or end |
| Promotions.ProductRow.EndPromotionOnSellout | apps/api-commerce/app/catalog/promotions.py:69-145 | the product is stamped if and only if the event's variant inherits the price, the option is on, it is not stamped or archived, the promotion runs and every counted variant is out of stock |
| Promotions.ProductRow.Update | apps/api-commerce/app/catalog/service.py:339-344 | an edit arms the promotion again if and only if it changes the promotional price, its time window or the option |
| PromotionRuns.NoSelloutIsMissed | apps/api-commerce/app/catalog/promotions.py:3-8 | whatever the interleaving of stock operations and consumers: if some counted variant had stock, none has now and the product is not stamped, then a sold-out event of a counted variant is unconsumed that will end the promotion, whoever consumes it |
| PromotionRuns.TheLastConsumerEndsIt | apps/api-commerce/app/catalog/promotions.py:69-94 | for a pending event over empty shelves: in every continuation without a restock of a counted variant, once some consumer finished with the event the product is stamped, if and only if no consumer at work on it at the start had read before the shelves were empty |
| PromotionRuns.TheLastSaleEndsIt | apps/api-commerce/app/inventory/reservations.py:82-88 | the sale that empties a counted variant leaves an event that stamps the product in every such continuation |
| PromotionRuns.OnEmptyShelvesItEndsOnlyIfSomethingWaits | apps/api-commerce/app/catalog/service.py:339-344 | a promotion armed, or armed again, while every shelf is empty can end without a restock if and only if an event or a decision is still waiting |
| PromotionRuns.AnEventOutOfTimeIsTheLastChance | apps/api-commerce/app/catalog/promotions.py:83-90 | a consumer that takes the last waiting event on while the promotion is not running uses it up: the promotion, which could have ended without a restock before, no longer can |
| PromotionRuns.EndsOnlyWhenSoldOut | apps/api-commerce/app/catalog/promotions.py:92-94 | a product is stamped only if at some moment of the run every counted variant was out of stock |
| Lots.TicketsAddUp | apps/api-commerce/app/catalog/events.py:228-355 | in every reachable state a lot's tickets equal those on hand plus those sold, sold plus reserved never exceed them, the lots fit the capacity and are at most twenty |
| Lots.AnEditIsAcceptedExactly | apps/api-commerce/app/catalog/events.py:295-306 | a lot takes a new quantity if and only if it fits the capacity and covers what is sold plus reserved (or is the same) |
| Lots.SoldLotsStay | apps/api-commerce/app/catalog/events.py:336-337 | removal is refused for sales if and only if some of the lot's tickets are sold |
| Lots.EveryRunKeepsLots | apps/api-commerce/app/catalog/events.py:183-355 | adding, editing and removing lots, setting the capacity and all traffic of orders keep the lots and the stock behind them in agreement |
| EventService.EventRow.AddLot | apps/api-commerce/app/catalog/events.py:228-276 | the first lot takes over the product's first live variant and every other one a new variant; the lot is appended and its tickets are counted in, or the first failing check is reported and nothing changes |
| EventService.EventRow.UpdateLot | apps/api-commerce/app/catalog/events.py:278-327 | the lot's quantity and its variant's stock change by the same difference, or the refusal is reported and nothing changes |
| EventService.EventRow.RemoveLot | apps/api-commerce/app/catalog/events.py:329-355 | the lot goes and its variant is archived unless, in this order, tickets of it are off the shelf, a whole ticket is reserved, or it is the last of a published event; the reply says which |
| LotEffects.LotsAreRemovedExactly | apps/api-commerce/app/catalog/events.py:336-343 | in a reachable state a lot goes if and only if none of its tickets is sold, open orders hold less than one and it is not the last of a published event, and each refusal names the first of these that fails |
| CourierService.CourierTable.Reserve | apps/api-commerce/app/courier/service.py:189-245 | exactly when the order can have a courier and has no open row a new row is added: requested, due at once, under the store's fee cap and with nothing else on it, and the order's only open row; otherwise no row changes, and the reply says which row there is or why there is none |
| CourierService.CourierDelivery.Apply | apps/api-commerce/app/courier/service.py:126-154 | what the provider reported is noted, and closes, activates or leaves the row accordingly |
| CourierService.CourierDelivery.ConfirmFee | apps/api-commerce/app/courier/service.py:247-257 | only a waiting row is confirmed: its cap becomes the quoted fee and it is due again |
| CourierService.CourierDelivery.RequestCancel | apps/api-commerce/app/courier/service.py:269-294 | what the provider cannot know of closes at once, everything else is to be cancelled there |
| CourierService.CourierDelivery.Claim | apps/api-commerce/app/courier/service.py:535-547 | the row is this worker's under a new, larger attempt number until the lease ends |
| CourierService.CourierDelivery.RememberQuote | apps/api-commerce/app/courier/service.py:608-616 | the quote is written if and only if the claim is still this worker's |
| CourierService.CourierDelivery.Record | apps/api-commerce/app/courier/service.py:618-674 | the outcome is written as the row's state and claim allow, and the reply says which case it was |
| CourierService.CourierDelivery.FinishCancel | apps/api-commerce/app/courier/service.py:707-741 | the cancellation is recorded if its claim holds, and the reply says how it ended |
| CourierService.CourierDelivery.Process | apps/api-commerce/app/courier/service.py:314-336 | a sweep or a refresh dispatches, cancels or tracks exactly when the protocol has such a claim on the row enabled |
| CourierSweeps.EveryRowGetsItsTurn | apps/api-commerce/app/courier/service.py:747-765 | in every reachable state, with any provider, a row to be dispatched or cancelled can be claimed by any idle worker after a wait of at most ten minutes, and not before its time |
| CourierSweeps.ForcingNeverDispatches | apps/api-commerce/app/courier/service.py:338-348 | a row that was active when an operator's refresh read it is never dispatched or given up by it, whatever happened to the row in between |
| CourierLanding.NeverTwoCouriers | apps/api-commerce/app/courier/service.py:571-616 | over every run with crashes, lost replies and take-overs, and with any provider, at most one delivery is ever created for a row as long as no create request lands overtaken |
| CourierLimits.ALandingStaysAloneExactly | apps/api-commerce/app/courier/service.py:571-594 | with a provider that takes no care: in every continuation without overtaken landings a landing leaves its row with at most one delivery, if and only if it is not overtaken itself, or its row is past dispatch, had no delivery and has no request for its own quote still to land |
| CourierLimits.ALandingStaysInReachExactly | apps/api-commerce/app/courier/service.py:575-579 | with any provider, one that honours the idempotency key included: a landing's delivery stays within reach in every such continuation if and only if it does not land overtaken |
| CourierLimits.AnOvertakenDeliveryIsLost | apps/api-commerce/app/courier/service.py:596-616 | from any reachable overtaken landing, with any provider, some continuation leaves the delivery neither on the row nor derivable from its quote |
| CourierLimits.ADoublingRequestMakesTwo | apps/api-commerce/app/courier/service.py:571-594 | from any other reachable overtaken landing some continuation ends with two deliveries: at once, by a request still coming, or by another attempt |
| CourierLimits.ALateCreateMakesTwoCouriers | apps/api-commerce/app/courier/service.py:646-650 | there is such a run: the first attempt times out, the second gets its courier and is recorded, and the first one lands, all inside the first lease |
| CourierLimits.AKeyedDeliveryIsLost | apps/api-commerce/app/courier/service.py:584-592 | with a provider that honours the key there is a run in which the only delivery is out of reach of its open row, and the row then closes as failed over it |
| CourierLanding.NoCreateForAnExistingDelivery | apps/api-commerce/app/courier/service.py:575-585 | as long as no request lands overtaken, a worker that holds its row asks for a delivery only while the row has none, or none but the very one it asks for |
| CourierLanding.EveryGoodRunKeeps | apps/api-commerce/app/courier/service.py:571-616 | in such runs what a worker that holds its row believes about earlier deliveries is true, and a row remembers the quote of its delivery |
| CourierLease.NoCreateWithinTheLease | apps/api-commerce/app/courier/service.py:575-585 | with a provider that creates nothing after the sender's call or lease ended, a request inside its lease never meets an existing delivery, even when its row was taken over |
| CourierLease.PromptRunsLandWell | apps/api-commerce/app/courier/service.py:535-547 | with such a provider no request of any run lands overtaken, so all of these promises hold |
| CourierLanding.EveryDeliveryIsReachable | apps/api-commerce/app/courier/service.py:596-616 | as long as no request lands overtaken, every delivery's id is derived from its row's quote, and an id on the row is that same one |
| CourierSafety.EveryDeliveryIsWithinTheCap | apps/api-commerce/app/courier/service.py:580-583 | every delivery was quoted at or below its row's cap, from then on and whatever is confirmed later, with any provider |
| CourierFees.TheStoresCapHolds | apps/api-commerce/app/courier/service.py:219-230 | in every run, with any provider, a row opened under a cap never has a delivery above it unless the store confirms a fee for the row |
| CourierFees.TheConfirmedFeeHolds | apps/api-commerce/app/courier/service.py:247-256 | after a confirmation no delivery of the row costs more than the fee it was shown, until another one; and the provider quoted that fee for this row |
| CourierEffects.StepsTakeEffect | apps/api-commerce/app/courier/service.py:117-741 | every step of every run writes one row at most, and leaves each of its fields as the transaction promises: claims, quotes, outcomes, reports, cancellations, confirmations |
| CourierSafety.RowsOnlyEvolve | apps/api-commerce/app/courier/service.py:117-153 | over any stretch of any run attempts and cap only rise, a row past dispatch stays so and a closed row is never written again |
| CourierSafety.RowsAreCoherent | apps/api-commerce/app/courier/models.py:54-71 | in every reachable state the marker is set exactly on open rows, an order has at most one of them, rows to act on have a due time, closed and waiting rows have none, and a waiting row was quoted above its cap |
| CourierSafety.OneWorkerHoldsTheRow | apps/api-commerce/app/courier/service.py:535-547 | at most one worker in flight can still write to a row that is being created |
| CourierSafety.AStaleWorkerOnlyHelpsCancel | apps/api-commerce/app/courier/service.py:608-741 | from the moment a claim is lost in any run, with any provider, it stays lost and its worker never changes anything else |
| CourierSafety.AttemptsTakeEffectOnce | apps/api-commerce/app/courier/service.py:632-658 | attempts of a row take effect at most once each, in order, and at most four of them end in a retry |
| CourierInvariant.EveryRunKeepsBase | apps/api-commerce/app/courier/service.py:467-658 | rows, quotes, deliveries, workers and the log stay consistent with each other in every run, whatever the provider does |
| CourierLease.EveryRunKeepsLease | apps/api-commerce/app/courier/service.py:535-547 | with such a provider: while a lease runs the row is its worker's or past dispatch, no two leases on a row run at once, and what a live worker believes about the row is true |
| VariantMatrix.MatrixIsComplete | apps/api-commerce/app/catalog/service.py:1035-1036 | the matrix holds exactly the ways to choose one value per option |
| VariantMatrix.TheLastOptionVariesFastest | apps/api-commerce/app/catalog/service.py:1035-1036 | the rows are in the order of the values, the last option varying fastest |
| VariantMatrix.MatrixRowsDiffer | apps/api-commerce/app/catalog/service.py:1035-1040 | when names and values differ case-insensitively, no two rows have the same key |
| VariantRuns.OptionsAreCheckedExactly | apps/api-commerce/app/catalog/service.py:1015-1032 | options are accepted if and only if names and values differ case-insensitively and the matrix has at most a hundred rows |
| VariantRuns.PlanUsesEachOnce | apps/api-commerce/app/catalog/service.py:542-553 | the plan never gives a variant to two combinations, the default included |
| VariantRuns.TheOwnerIsChosen | apps/api-commerce/app/catalog/service.py:535-548 | a combination some variant carries, live or archived, goes to that variant |
| VariantRuns.SetOptionsKeepsCoherent | apps/api-commerce/app/catalog/service.py:516-592 | every call keeps the live variants equal to the matrix, one per combination and position, and combinations unique among all variants |
| VariantRuns.EveryCombinationHasItsVariant | apps/api-commerce/app/catalog/service.py:562-592 | after any run every combination of the current options has exactly one live variant, at its position |
| VariantRuns.EveryLiveVariantHasItsCombination | apps/api-commerce/app/catalog/service.py:583-587 | after any run every live variant stands for a combination of the current options |
| VariantRuns.NoTwoVariantsAreAlike | apps/api-commerce/app/catalog/service.py:526-588 | after any run no two variants, live or archived, carry the same case-folded combination |
| VariantRuns.KeysOnlyGrow | apps/api-commerce/app/catalog/service.py:526-588 | between returns to the empty option list a variant keeps its combination |
| VariantRuns.OldOptionsReviveTheSameVariants | apps/api-commerce/app/catalog/service.py:534-553 | a combination that comes back, in any case and order of options, comes back as the same variant |
| VariantRuns.AResetForgetsOnlyTheFirst | apps/api-commerce/app/catalog/service.py:544-546 | going back to no options keeps the variant at position zero without its combination and archives all others with theirs |
| VariantService.ProductRow.SetOptions | apps/api-commerce/app/catalog/service.py:516-594 | the reply follows from product status, options and the variants' statuses; when saved, every row of the matrix has the variant that carries it, the default, or a new one, revived and new variants are for sale, those that stay keep status and pause, those not wanted are archived now; otherwise nothing changes |
| VariantEffects.OptionsAreSavedExactly | apps/api-commerce/app/catalog/service.py:516-560 | a call is saved if and only if the product is neither archived nor of tickets, the options are acceptable and new, and, on a published product, some row is left to a new, revived or sellable variant; every other reply has its exact condition too |
| VariantEffects.SavingTakesOptions | apps/api-commerce/app/catalog/service.py:534-587 | which variant fills each row, and what becomes of the status, pause and archive date of every variant |
| VariantService.ProductRow.CheckedOptions | apps/api-commerce/app/catalog/service.py:1015-1032 | accepts exactly what is distinct and at most a hundred rows, and reports the first problem there is |
| OutboxRuns.EffectsHappenOnce | apps/api-commerce/app/audit/outbox.py:145-172 | in every run with duplicated, late, failing and crashing tasks a consumer's effect on an event is committed exactly when its processed mark is, and never twice |
| OutboxRuns.DoneMeansEveryConsumerRan | apps/api-commerce/app/audit/outbox.py:226-237 | a done event has had its effect on every consumer registered for its type, although the run that marked it counted before it committed |
| OutboxRuns.OnlyAStaleCountMarksOverAFailure | apps/api-commerce/app/audit/outbox.py:226-237 | one step makes an event read done over a delivery that is not if and only if it commits a run that counted the event as done before that delivery failed |
| OutboxRuns.DoneMeansDelivered | apps/api-commerce/app/audit/outbox.py:226-237 | without such commits every done event has all its deliveries done |
| OutboxLimits.OnlyAMissedCountLeavesOpen | apps/api-commerce/app/audit/outbox.py:226-237 | one step leaves an event open with all its deliveries done if and only if it commits the last of them on a count that missed it, or retries by hand what is finished |
| OutboxLimits.FinishedEventsClose | apps/api-commerce/app/audit/outbox.py:226-237 | without such steps an event whose deliveries are all done never reads dispatched |
| OutboxLimits.TwoCountsMissEachOther | apps/api-commerce/app/audit/outbox.py:226-237 | from any reachable state in which two deliveries of an event are the last to be made, they can finish side by side and leave it open |
| OutboxLimits.ItNeverReadsDone | apps/api-commerce/app/audit/outbox.py:145-205 | an event left open that way never reads done, whatever happens afterwards, retries by hand included |
| OutboxLimits.ADoneEventCanHoldAFailure | apps/api-commerce/app/audit/outbox.py:173-202 | from any reachable state in which two deliveries of an event are the last to be made, the event can come to read done over one that failed |
| OutboxRuns.NothingWaitsForever | apps/api-commerce/app/audit/outbox.py:181-192 | a pending delivery always has a due time at most two hours ahead and an attempt left, a failed one has used all eight, and an event waiting for the relay has no delivery |
| OutboxRuns.NoDeliveryIsStranded | apps/api-commerce/app/audit/outbox.py:240-285 | from every reachable state every delivery can still be made: wait or retry by hand, claim, run |
| OutboxRuns.DoneMeansProcessed | apps/api-commerce/app/audit/outbox.py:173-202 | as long as no delivery's last counted failure comes after its effect was committed, a delivery is done exactly when its effect is committed |
| OutboxRuns.OnlyALateFailureParts | apps/api-commerce/app/audit/outbox.py:173-202 | one step parts the delivery table from the processed marks if and only if it is such a failure |
| OutboxLimits.ADeliveryCanFailThoughDone | apps/api-commerce/app/audit/outbox.py:173-202 | from every reachable state each delivery still to be made can end as failed, its event with it, although its effect is committed |
| OutboxRuns.NoConsumerIsSkipped | apps/api-commerce/app/audit/outbox.py:127-140 | if events are retried by hand only once relayed, every event that left the relay has a delivery for each consumer of its type |
| OutboxRuns.OnlyAnEarlyRetrySkips | apps/api-commerce/app/audit/outbox.py:267-285 | one step leaves a consumer without its delivery if and only if it is a retry by hand of an event that is still waiting for the relay |
| OutboxLimits.AnEarlyRetryIsForGood | apps/api-commerce/app/audit/outbox.py:267-285 | an event retried by hand before it was relayed is never delivered to any consumer, whatever happens afterwards |
| OutboxLimits.AnEventCanBeForgotten | apps/api-commerce/app/api/v1/endpoints/ops_outbox.py:39-47 | an event and one retry by hand lead there from an empty outbox |
| OutboxRuns.EveryRunIsFine | apps/api-commerce/app/audit/outbox.py:105-285 | what the promises rest on, kept by every relay, claim, run, failure, crash and retry |
| OutboxEffects.StepsTakeEffect | apps/api-commerce/app/audit/outbox.py:105-285 | every step of every run leaves each event, delivery, mark and effect as its transaction promises, field by field, and all others alone |
| OutboxService.OutboxTables.RelayPending | apps/api-commerce/app/audit/outbox.py:105-142 | of the pending events that are due and not locked, all or as many as the limit allows get one leased delivery per matching consumer, or are done when they have none, and exactly these are handed out |
| OutboxService.OutboxTables.Begin | apps/api-commerce/app/audit/outbox.py:145-155 | a run is missing, a duplicate, or goes to work with the event's status as it is then |
| OutboxService.OutboxTables.Write | apps/api-commerce/app/audit/outbox.py:161-172 | a run that finds the mark made meanwhile is a duplicate; any other counts, before it commits, whether it is the last of its event |
| OutboxService.OutboxTables.Commit | apps/api-commerce/app/audit/outbox.py:226-237 | the effect, the mark and the delivery are kept together, and the event reads done if the run counted it so |
| OutboxService.OutboxTables.Fail | apps/api-commerce/app/audit/outbox.py:178-202 | nothing of the run is kept but one more failed attempt: a later due time, or the end of delivery and event at the eighth |
| OutboxService.OutboxTables.ClaimDueDeliveries | apps/api-commerce/app/audit/outbox.py:240-264 | of the pending deliveries that are due and not locked, all or as many as the limit allows, and only they, are pushed one lease ahead and handed out |
| OutboxService.OutboxTables.Retry | apps/api-commerce/app/audit/outbox.py:267-285 | the event's failed deliveries wait again with no attempts, due at once, and are counted; the event is dispatched again; all other deliveries and events, marks and effects stay as they are |
| CouponRules.DiscountIsWithinTheGoods | apps/api-commerce/app/coupons/rules.py:38-76 | a usable coupon takes off more than nothing and at most the subtotal and its own cap; an uncapped percentage is within half a cent of exact, the half rounded up |
| CouponRules.BuyingMoreNeverCostsLess | apps/api-commerce/app/coupons/rules.py:43-76 | for two subtotals at which a coupon is usable neither the discount nor what is left to pay is lower at the larger one |
| CouponRules.CouponsAreDecidedExactly | apps/api-commerce/app/coupons/rules.py:43-76 | a coupon is worth the amount it takes off if and only if it is active, in time, met by the subtotal, with places left in all and for the customer, and takes something off; each refusal if and only if its condition is the first not met |
| Coupons.TheCounterIsTheUses | apps/api-commerce/app/coupons/service.py:112-147 | in every reachable state the counter is the number of redemptions in force, so a release always finds it above zero and lowers it by one |
| Coupons.LimitsAreNeverExceeded | apps/api-commerce/app/coupons/service.py:69-75 | while a coupon's limits stay as they are neither its total uses nor any customer's ever exceed them |
| Coupons.CouponTables.PlaceOrder | apps/api-commerce/app/coupons/service.py:59-125 | the reply follows from the coupon's conditions, with its counter and the customer's redemptions in force as they are; a use is taken exactly when it is worth something and the order has none, with that discount on the redemption and one more on the counter, and otherwise nothing changes |
| Coupons.CouponTables.ReleaseOrder | apps/api-commerce/app/coupons/service.py:127-147 | the order's redemption in force is released and its place given back, or nothing changes |

## Left out

- The HTTP layer, the ORM, the clients of outside services, audit rows, log lines, e-mail and message texts: not logic of these state machines. Tables are maps, rows are values or objects, ids are natural numbers, times are seconds.
- Transactions interleave as whole steps, with what they read long before they write modelled as stale where the code does so: the processed mark, the event status and the count of open deliveries in the outbox, the balances a promotion consumer reads, a courier worker's claim.
- The order in which a query returns its rows, and how many a limit lets through: any batch of due rows is allowed, which covers limits and skipped locks.
- OutboxRuns.EffectsHappenOnce: a failed run reads the delivery and counts its failure in one step; event sequence numbers and tenant binding are not modelled.
- OutboxRuns.DoneMeansEveryConsumerRan: that the deliveries of a done event read done as well is not promised, because a late failure can come between the count and the commit (`ADoneEventCanHoldAFailure`); `OnlyAStaleCountMarksOverAFailure` says exactly when.
- OutboxLimits.FinishedEventsClose: that all deliveries are done does not make the event done in general; the lemma says when it does.
- OutboxService.OutboxTables.RelayPending: the locked rows are given, and events come in any order, not by time of occurrence.
- OutboxService.OutboxTables.ClaimDueDeliveries: the locked rows are given, and deliveries come in any order.
- OutboxService.OutboxTables.Fail: error texts are not modelled; whether the handler raises is up to the caller.
- CourierLanding.NeverTwoCouriers: of every provider it is taken for granted that a quote's id has the documented form, from which the delivery's id is derived, and that an answer names the delivery it was asked about; with quotes of another form nothing can be looked up, and a retry can make a second courier.
- CourierLanding.EveryDeliveryIsReachable: a row closed because its order moved on, or cancelled while a create was on its way, may have a delivery the store no longer follows; nothing is claimed about that.
- CourierService.CourierTable.Reserve: the row is flushed under the order's lock; losing a race on the unique key is the same reply as finding the open row.
- CourierService.CourierDelivery.Apply: courier name and vehicle, arrival estimates and error texts are not modelled, nor is moving the order along with its courier or alerting the store.
- CourierService.CourierDelivery.Claim: the reasons a claim can fail (credentials, phones, addresses) are one step that closes the row as failed.
- InventoryService.Inventory.Reserve: the availability the caller saw under the locks is its precondition; the pricing that checks it is not part of this model.
- InventoryService.Inventory.Adjust: the adjustment record, unit costs and the general adjusted event are not modelled, only the stock alerts; quantities arrive in thousandths.
- LedgerAudit.AuditLedger: the tables stand still while the pages are read.
- Promotions.ProductRow.Update: the other fields of a product and their audit are not modelled.
- PromotionRuns.NoSelloutIsMissed: the promotion and the counted variants stay as they are during the run, and consumers run while it is active; for an edit that arms it again see `OnEmptyShelvesItEndsOnlyIfSomethingWaits`, for other times `AnEventOutOfTimeIsTheLastChance`.
- Lots.TicketsAddUp: a lot's variant starts without sales or holds and is adjusted by its lot only; sale windows, prices and names of lots are not modelled.
- EventService.EventRow.AddLot: names, prices, SKUs and sale windows are not modelled; the id of a new variant is drawn by the table, fresh, while the product's own variant may have been sold before.
- EventService.EventRow.RemoveLot: the variant is archived by leaving the list of live ones.
- Locks.NoDeadlock: only balance rows, taken once per transaction; the locks on carts, coupons and orders that come before them are not modelled.
- VariantService.ProductRow.SetOptions: variant names, SKUs, prices and the balance rows of new variants are not modelled; case folding is any function on strings.
- Coupons.OneRedemptionPerOrder: that an order has one redemption is the table's key; what is proved is that it is never replaced.
- Coupons.CouponTables.PlaceOrder: codes, notes and listing are not modelled.
- Modifier groups, categories, tags, slugs, the packing engine, pricing, payments and orders are not modelled.
