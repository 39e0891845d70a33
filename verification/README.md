# Order dispatch: a verified model

The repository dispatches orders to human takers. An order is offered to one ranked user at a time; the
offer expires, is withdrawn or is taken; a taken order is completed, cancelled or timed out. Four processes
(API, bot, dispatcher, offer expirer) share Postgres rows and Redis keys. This project models that machinery
in Dafny and proves what it keeps.

Check it with `dafny verify dfyconfig.toml`.

## How it is built

- `Records`, `Packages`, `Money`, `Tiers`, `Pricing`: values, greedy decomposition, minor units, tier tables,
  prices.
- `Protocol`: the offer/take protocol as a state machine. One event is one SQL statement, one transaction, one
  Lua script or one MULTI pipeline; events of all processes interleave freely. A reservation not yet recorded,
  a release or a rating update not yet performed, and how far each handling of an order by a sweep is are part
  of the state. Any number of sweeps may be under way at once, over the same orders if need be. `Counting`
  holds the cardinality lemmas.
- `Safety`: the invariant and the exact line between safe and unsafe steps. `record_offer`, `mark_offering`,
  `mark_no_takers`, the release of `_rollback_offer` and `clean_order` have no status guard; a step is called
  racy when the missing guard would have refused it. `SafeIffNotRacy` says that a step keeps the counter
  equation, the one-open-offer rule and the forward order of statuses if and only if it is not racy.
- `Runs`: the same over whole runs, an exclusion rule that suffices (no take, clean-up or further sweep
  touches an order between its listing and the end of its handling), and the consequences: limits, the floor
  that never fires, finality. That nobody is offered an order twice needs only the part of the rule about
  sweeps. `Witnesses`: runs from the empty state for each way the rule can be broken.
- `Books`: ledger exactly-once, balances, rating counters, conservation of offers. `RatingBackfill`: what the
  rating script stores compared with the live counters.
- `Store`, `Lifecycle`, `Fanout`: the repositories and services as classes. `Store.Database` carries a ghost
  log; `Valid` says that the fields are what the protocol gives after the logged events. Each service method
  is proved to perform exactly the events of its contract, so every run theorem speaks about the classes
  too. What a call does to statuses, rows, counters and ledger is stated on it as well, without the functions
  of the protocol. Statements that stand for a step of the protocol require that the step is due, which is an
  obligation on the services.
- `OnlineIndex`, `Ordering`, `Ranking`: index against plain scan, tuple sorting, both strategies with their
  sweep caches. `Presence`: who calls the index. `Dispatch`: index, ranking, sweep and take together.
- `RatingWindow`, `Timeouts`, `Reconciliation`, `PriceEntry`: the rating list, the timeout job chain, the
  code check against the controller, the price form.

## Main results

- Safety of the protocol: `Safety.InvKept`, `Safety.SafeIffNotRacy`, `Runs.RunSafeIffNoRace`,
  `Runs.ExclusiveRunsAreSafe`, with `Witnesses.OverlapBreaks` and its neighbours for the other side.
- Consequences over runs: `Runs.LimitHolds`, `Runs.OrdersAreFinal`, `Runs.TakenAndResolvedOnce`,
  `Runs.NobodyOfferedTwice`, `Runs.OffersBoundedByUsers`, `Runs.BackfillChangesNothingIff`.
- Accounting: `Books.BooksBalance`, `Books.BalanceIsEarned`, `Books.LedgerRowIff`, `Books.OffersAreConserved`,
  `RatingBackfill.BackfillKeepsIff`.
- The services refine the protocol: `Fanout.OrderFanout.SweepAndFanOut`, `Lifecycle.OrderLifecycle.Take`,
  `Lifecycle.OrderLifecycle.Complete`, `Books.StoredBooksBalance`.
- From the index to the take: `OnlineIndex.IndexIsScanOfSynced`, `Ranking.PackRanking.SelectCandidates`,
  `Ranking.CodeRanking.SelectCandidates`, `Ranking.SelectionIsUnique`, `Presence.CodeOffersFitProfileIff`,
  `Presence.PackOffersStandIff`, `Dispatch.Dispatcher.Sweep`, `Dispatch.ChosenTakes`.
- Decomposition and money: `Packages.GreedyIsLexGreatest`, `Packages.RoundTripIffCanonical`,
  `Packages.DecomposeAcceptsIff`, `Money.FormatThenParse`.
- Timers, codes, ratings: `Timeouts.OrderTimeouts.ExpireTaken`, `Timeouts.OrderTimeouts.AddPing`,
  `Reconciliation.ExternalOrderApi.CheckUnusedCodes`, `Reconciliation.CallPartitionIff`,
  `RatingWindow.RebuildEqualsReplay`, `Ranking.SoonerIsAskedFirst`.

## Findings

- Pressing "take" after the offer message arrived and before `mark_offering` ran makes the dispatcher overwrite
  the taken order (`Witnesses.EarlyTakeBreaks`).
- `_rollback_offer` releases its user even if the offer was taken in between (`Witnesses.LateRollbackBreaks`);
  `clean_order` on a taken order loses the unit its taker's counter holds (`Witnesses.LateCleanBreaks`).
- An order of 360 units makes `select_candidates` raise, which ends the sweep while its other tasks go on. The
  next sweep may handle the same orders a second time: one user's counter ends a unit too high, or the order
  has two open offers (`Witnesses.OverlapBreaks`). All counter, offer and status guarantees hold exactly for
  the runs without such steps (`Runs.RunSafeIffNoRace`).
- Approving a profile or changing its prices does not sync it. A code user approved again at a lower tier, or
  for pack orders, while online stays a candidate for codes it may not take
  (`Presence.CodeOffersFitProfileIff`, reached in `Presence.ApprovedAgainLower`); a pack user is still offered
  orders of sizes it has lost, or at a price that has changed (`Presence.PackOffersStandIff`, reached in
  `Presence.RepricedWhileOnline`). The index by itself would also go stale when a user is synced at a lower
  tier without leaving (`OnlineIndex.CodeOffersTakeableIff`, `Presence.LoweredWhileOnline`); the present
  callers never do that (`Presence.CodeOffersAreTakeable`).
- The rating script and the live counters differ: the script counts code orders
  (`RatingBackfill.BackfillCountsCodeOrders`). When the two agree is `RatingBackfill.BackfillKeepsIff`.
- A replacement for a code with a wrong amount is recorded under that wrong amount although the order's amount
  was requested (`Reconciliation.ReplacementAmountIff`); a replacement request without a response raises,
  which leaves in two places exactly the codes judged redeemed or broken up to then
  (`Reconciliation.TwoPlacesIff`).
- An order without a player and an answer without one agree by accident: both absent names read "None", and a
  code whose redeemer is not named counts as redeemed by the player (`Reconciliation.AbsentPlayersMatch`).
- A ping stored after the message of its order expired, or after the record was popped because the order was
  completed meanwhile, recreates the key without TTL (`Timeouts.OrderTimeouts.AddPing`, reached in
  `Timeouts.LatePing` and `Timeouts.PingAfterClear`).
- The expiry callback renders an order as timed out even if it was completed after the check, as long as the
  record is still there (`Timeouts.OrderTimeouts.RenderTimedOut`, reached in
  `Timeouts.TimedOutThoughCompleted`).
- Greedy decomposition refuses amounts that other counts would make, 360 for one; `Packages.DecomposeAcceptsIff`
  says which.

## Model

| member | source | states |
|---|---|---|
| `Packages.GreedyConserves` | common/services/order_processing.py:63-67 | packages taken plus what is left over is the amount, for every size table and amount |
| `Packages.GreedyIsLexGreatest` | common/services/order_processing.py:63-66 | no other way to stay within the amount is lexicographically greater from the largest size down |
| `Packages.RoundTripIffCanonical` | common/services/order_processing.py:58-71 | recomposing counts and decomposing again returns them exactly for canonical counts, and only for those |
| `Packages.DecomposeSums` | common/services/order_processing.py:58-71 | decomposition succeeds exactly when the remainder chain ends at 0; then the sizes are real, ascending, counted at least once, and sum to the amount |
| `Packages.DivideOut` | common/services/order_processing.py:61-66 | the division loop computes the remainder chain and the non-zero counts |
| `Packages.DecomposeAmount` | common/services/order_processing.py:58-71 | the function as a loop: its pairs sum to the amount, and it refuses exactly the non-positive and the undividable amounts |
| `Packages.DecomposeAcceptsIff` | common/services/order_processing.py:58-71 | an amount is accepted exactly when it is positive and has a canonical representation, each size taken as often as it fits |
| `Packages.OnePackage` | common/services/order_processing.py:58-71 | the amount of one package decomposes into that package |
| `Packages.GreedyIsIncomplete` | common/services/order_processing.py:67-69 | 360 is refused although six packages of 60 make it |
| `Packages.GreedyIsNotMinimal` | common/services/order_processing.py:63-66 | 1980 takes four packages although three of 660 make it |
| `Money.MinorUnitsExactIffWholeCents` | common/money.py:24-29 | the index holds a price exactly when the price has at most two decimals, and only then |
| `Money.MinorUnitsAreNearest` | common/money.py:24-25 | minor units are the nearest whole number of hundredths, an even one when two are equally near |
| `Money.UnitsRoundTrip` | common/money.py:24-29 | minor units survive the way to a price and back |
| `Money.MinorUnitsLinear` | common/money.py:24-25 | on two-decimal prices the conversion is linear, so weighted scores add up |
| `Money.ParsedMoneyIsWholeCents` | common/money.py:9-13 | every accepted text gives a price the index can hold exactly |
| `Money.FormatThenParse` | common/money.py:9-21 | printing an amount and typing it back gives the amount |
| `Money.AcceptedTexts` | common/money.py:6-13 | accepted are exactly, after stripping, digits, optionally followed by a dot and one or two digits |
| `Money.OneDecimalIsTenths` | common/money.py:6-13 | one digit after the dot counts tenths |
| `Tiers.TiersAreNested` | common/catalog/tiers.py:99-117 | both range tables are nested: a higher tier allows whatever a lower one does |
| `Tiers.RequiredIsThreshold` | common/catalog/tiers.py:36-40 | a tier allows the amounts exactly from `required` upwards |
| `Tiers.ServingIsUpwardClosed` | common/catalog/tiers.py:42-43 | `serving` is exactly the tiers from `required` upwards |
| `Tiers.RangesAre` | common/catalog/tiers.py:99-117 | the ranges, tier by tier, in numbers |
| `Pricing.PaidAsTaken` | common/services/ranking.py:214-248 | with an unchanged profile the completion pays the price the order was taken at |
| `Pricing.CompletionRaisesIff` | common/services/ranking.py:225-238 | a completion raises exactly when a pack amount cannot be decomposed or a needed size has lost its price |
| `Pricing.CompletionPays` | common/services/ranking.py:214-248 | for a profile of any tier, status, online flag and kind: a code order pays the code price, a pack order the full price by the stored prices, or nothing when an amount or a price is missing |
| `Pricing.SamePricesSamePay` | common/services/ranking.py:225-241 | two profiles that agree on the prices of the needed sizes are paid the same, whatever else differs |
| `Pricing.FullPriceAdds` | common/services/order_processing.py:74-78 | prices add up over any division of the packages; with `FullPriceOfOne`, price times count, that leaves one full price |
| `Counting.UsersCount` | common/services/order_fanout.py:135-136 | a release batch names a user once for each of the user's rows in the statement's result |
| `Counting.ExpireCounts` | common/repositories/postgres/order_offers.py:114-132 | expiring rows moves each from the open to the expired count of its user |
| `Counting.ReleasedAt` | common/repositories/redis/pending_orders.py:16-22 | a release batch, repeats included, subtracts each user's multiplicity while no key is asked for more than it holds |
| `Counting.ReleasedIs` | common/repositories/redis/pending_orders.py:16-22 | what a release batch leaves in any counter, floor included: the difference, or 0 when more are released than held |
| `Protocol.LeadsIsExec` | common/services/order_processing.py:142-247 | a store's log is a legal run of the protocol and its fields are that run's final state |
| `Safety.RollbackCounts` | common/services/order_fanout.py:183-185 | the roll-back counts right for its user exactly when the row was still open, since it releases either way |
| `Safety.CleanCounts` | api/services/order_entity.py:110-122 | a clean-up counts right for every user but the taker of a taken order |
| `Safety.ReleaseCounts` | common/repositories/redis/pending_orders.py:16-22 | a delayed release of owed users, repeats included, keeps the counter equation |
| `Safety.TakeExpiresNobody` | common/services/order_processing.py:183-190 | the competitor expiry inside `take` never finds a competitor |
| `Safety.TablesKept` | common/repositories/postgres/orders.py:164-202 | every race-free step keeps: one open offer per order and only on open orders, one TAKEN row per taken order, no open offer without a deadline, poller or dispatcher in charge of it |
| `Safety.ForwardKept` | common/repositories/postgres/orders.py:255-353 | every race-free step keeps orders, moves their status only forward and never changes a taker |
| `Safety.InvKept` | common/services/order_fanout.py:59-191 | every race-free step keeps the whole invariant |
| `Safety.SafeIffNotRacy` | common/repositories/postgres/orders.py:182-218 | a step keeps counters, offers and statuses right exactly when the guard its statement lacks would have let it through; overlapping sweeps included |
| `Runs.RunSafeIffNoRace` | scripts/backfill_pending_orders.py:22-26 | a run, with any number of sweeps under way at once, is safe at every step exactly when no unguarded write in it hits a row it should not; then the counter equation holds throughout |
| `Runs.ExclusiveRunsAreSafe` | common/services/order_fanout.py:59-157 | any interleaving that keeps takes, clean-ups and further sweeps off the orders being dispatched is safe throughout |
| `Witnesses.EarlyTakeBreaks` | common/services/order_fanout.py:103-128 | a run from the empty state that presses take between delivery and `mark_offering`: the order is offered again though taken and the counter is wrong |
| `Witnesses.LateRollbackBreaks` | common/services/order_fanout.py:183-185 | a run in which a take falls before the roll-back: a slot the taken order needs is released |
| `Witnesses.LateCleanBreaks` | api/services/order_entity.py:110-122 | a run that cleans up a taken order: the slot of its taker is never given back |
| `Witnesses.OverlapBreaks` | common/services/order_fanout.py:130-157 | a run without take or clean-up: an undividable order ends one sweep while its other handling goes on, the next sweep lists that order again, and either the counter of a user ends one too high or the order has two open offers |
| `Runs.LimitHolds` | common/repositories/redis/pending_orders.py:7-14 | open offers plus taken orders of a user never exceed the counter, nor the counter the limit |
| `Runs.HolderIsNeverLimited` | common/services/order_processing.py:158-160 | a user with an open offer is never told by `take` that the limit is reached |
| `Runs.FloorNeverFires` | common/repositories/redis/pending_orders.py:16-22 | in a release batch no decrement ever meets a counter at 0 |
| `Runs.BackfillChangesNothingIff` | scripts/backfill_pending_orders.py:22-26 | the backfill script changes a counter exactly when a reservation or release of that user is under way |
| `Runs.OneTakenRow` | common/repositories/postgres/order_offers.py:68-80 | an offer row is TAKEN exactly when its user is the taker of its order |
| `Runs.OrdersAreFinal` | common/repositories/postgres/orders.py:255-353 | over any race-free run a taker stays the taker and a closed order keeps its closing status |
| `Runs.TakenAndResolvedOnce` | common/repositories/postgres/orders.py:328-353 | in any race-free run an order is taken at most once and at most one completion, cancellation or time-out succeeds |
| `Runs.OneHandKept` | common/repositories/postgres/order_offers.py:14-28 | as long as no order is listed while a handling of it is under way, each handling excludes everybody with a row for its order, whatever takes, clean-ups and expiries fall in between |
| `Runs.NobodyOfferedTwice` | common/repositories/postgres/order_offers.py:14-45 | in any run with that one restriction, races of every other kind included, a user is offered a given order at most once, because the exclusion set was read |
| `Runs.OfferUsesUpAUser` | common/services/order_fanout.py:140-154 | each recorded offer uses up exactly one user who had not been offered the order; nothing gives a user back |
| `Runs.OffersAreUsersAsked` | common/services/order_fanout.py:65-87 | the offers of an order in such a run are as many as the users newly asked |
| `Runs.OffersBoundedByUsers` | common/services/order_fanout.py:65-87 | and so never more than the users there are |
| `Books.AbortIffNoAmount` | migrations/020_transactions_per_order.sql:19-20 | the unique index never fires: a completion aborts exactly when its amount cannot be computed, and then changes nothing |
| `Books.BookedKept` | common/services/order_processing.py:195-210 | every step keeps exactly one ledger row, credited to the taker, for each completed order, and none for other orders |
| `Books.LedgerRowIff` | common/services/order_processing.py:195-210 | after any race-free run an order has a ledger row exactly when it is completed |
| `Books.BalanceIsEarned` | common/repositories/postgres/transactions.py:40-44 | over any run at all a balance is the sum of what that user's completions paid |
| `Books.BalanceOfRow` | common/repositories/postgres/transactions.py:40-44 | a ledger row adds its amount to the balance of its user and of nobody else |
| `Books.RatedKept` | common/repositories/redis/rating.py:45-67 | every step keeps the rating counters equal to the tables, up to updates still owed |
| `Books.BooksBalance` | common/services/ranking.py:225-251 | in every state a race-free run reaches, ledger and rating counters agree with the tables |
| `Books.StoredBooksBalance` | common/services/order_processing.py:142-247 | so they do in any store the services have led to while takes kept off orders being dispatched |
| `Books.OffersAreConserved` | common/services/offer_expiry.py:33-45 | for a user of pack orders with nothing owed, every offer recorded and not withdrawn is in the pending counter or in exactly one rating counter |
| `Store.Database.Fetch` | common/repositories/postgres/order_offers.py:123-132 | each matching row once, in the order the database likes |
| `Store.Database.Add` | common/repositories/postgres/orders.py:49-90 | a new order is pending and untaken |
| `Store.Database.ListDueForFanout` | common/repositories/postgres/orders.py:164-180 | the listed orders, all pending or offering, are in the hands of this sweep, whatever other sweeps have in hand |
| `Store.Database.MarkOffering` | common/repositories/postgres/orders.py:182-191 | sets the status by id only |
| `Store.Database.MarkNoTakers` | common/repositories/postgres/orders.py:193-202 | sets the status by id only |
| `Store.Database.CountInWork` | common/repositories/postgres/orders.py:243-253 | the loop over the rows counts exactly the orders taken by the user |
| `Store.Database.ClaimForTake` | common/repositories/postgres/orders.py:255-280 | claims pending and offering orders only, otherwise changes nothing |
| `Store.Database.Resolve` | common/repositories/postgres/orders.py:328-353 | closes an order taken by that user only, otherwise changes nothing |
| `Store.Database.RecordOffer` | common/repositories/postgres/order_offers.py:39-45 | inserts an open offer unless the row exists |
| `Store.Database.ResolveOffer` | common/repositories/postgres/order_offers.py:47-66 | resolves an open offer only |
| `Store.Database.Expire` | common/repositories/postgres/order_offers.py:134-156 | expires and returns exactly the open ones of the rows named |
| `Store.Database.ExpireOffered` | common/repositories/postgres/order_offers.py:96-112 | expires and returns exactly the open offers of an order |
| `Store.Database.ExpireOfferedForOrders` | common/repositories/postgres/order_offers.py:114-132 | expires and returns exactly the open offers of the listed orders |
| `Store.Database.ExpireMany` | common/repositories/postgres/order_offers.py:134-156 | expires and returns exactly the open offers of a claimed batch |
| `Store.Database.GatherOffered` | common/repositories/postgres/order_offers.py:22-28 | the dict holds for each order all users with a row, whatever its status |
| `Store.Database.OfferedUserIdsMany` | common/repositories/postgres/order_offers.py:14-28 | the exclusion sets the sweep goes on with |
| `Store.Database.ExpireOne` | common/repositories/postgres/order_offers.py:82-94 | the row of a failed delivery is withdrawn |
| `Store.Database.RecordCredit` | common/repositories/postgres/transactions.py:18-38 | appends a row, or refuses a second one for the same user and order |
| `Store.Database.Increment` | common/repositories/redis/pending_orders.py:7-14 | reserves exactly while the counter is below the limit |
| `Store.Database.Reserve` | common/repositories/redis/pending_orders.py:35-37 | the reservation as a step of the protocol |
| `Store.Database.ReleaseMany` | common/repositories/redis/pending_orders.py:16-22 | for any users, owed or not, the release loop equals its specification, floor and repeats included |
| `Store.Database.RecordNotTaken` | common/repositories/redis/rating.py:61-67 | for any users, one increment per mention |
| `Store.Database.ReleaseNotTaken` | common/services/order_fanout.py:187-191 | rates first, then releases |
| `Store.Database.RecordCancellation` | common/repositories/redis/rating.py:58-59 | one increment |
| `Store.Database.ScheduleDeadline` | common/repositories/redis/offer_deadlines.py:34-53 | the offer of the order in hand enters the deadline queue |
| `Store.Database.ClaimDue` | common/repositories/redis/offer_deadlines.py:11-19 | due members leave the queue for one poller |
| `Lifecycle.OrderLifecycle.Admit` | common/services/order_processing.py:152-172 | the checks in order; passing them means online, below the limit, right kind of order, valid |
| `Lifecycle.OrderLifecycle.Claim` | common/services/order_processing.py:173-188 | offer, order and competitors are written together or not at all |
| `Lifecycle.OrderLifecycle.Take` | common/services/order_processing.py:142-193 | when each answer is given: OFFLINE, LIMIT_REACHED, AMOUNT_ERROR and OK each exactly under their conditions on rows, counters of orders in work and profile, UNAVAILABLE otherwise; a take sets status, taker and price and turns the offer to taken, a refusal writes nothing; the log shows the take followed by rating and release |
| `Lifecycle.TakeAnswers` | common/services/order_processing.py:142-188 | the exact condition of each answer, in terms of the rows |
| `Lifecycle.SuitsIff` | common/services/ranking.py:199-223 | when an order suits a profile: same kind, and every needed size priced and within the tier, or every code amount within it |
| `Lifecycle.OrderLifecycle.OnComplete` | common/services/ranking.py:225-248 | a code order appends a credit of the code price, a pack order one of price times count over the decomposition by the prices of the completing profile, whatever its tier, status and online flag, and counts one completion; it raises only for an undividable amount, a missing price or a second row, and then credits nothing |
| `Lifecycle.OrderLifecycle.Settle` | common/services/order_processing.py:196-207 | closing and crediting together: the ledger row holds the amount of the completing profile, or an exception rolls the closing back |
| `Lifecycle.OrderLifecycle.Complete` | common/services/order_processing.py:195-210 | a completed order gets its status, one ledger row of the code price or of the full price by the prices of the completing profile, one completion for pack orders, and its slot back; refused exactly when the order is not in work for the user; after an exception nothing has changed |
| `Lifecycle.OrderLifecycle.Cancel` | common/services/order_processing.py:212-228 | found exactly when the order is in work for the user; then it is cancelled, a pack order counts one cancellation, and one slot is given back; otherwise nothing changes |
| `Lifecycle.OrderLifecycle.ExpireTaken` | common/services/order_processing.py:230-247 | found exactly when the order is in work for the user; then it is timed out, counts once as not taken, and gives one slot back; otherwise nothing changes |
| `Lifecycle.OrderEntityService.CleanOrder` | api/services/order_entity.py:110-122 | cancels by id, expires the open offers of the order and gives each of their users its slot back; nobody is rated |
| `Fanout.OrderFanout.ReserveNext` | common/services/order_fanout.py:80-85 | the first candidate with a free slot is reserved, and nobody else |
| `Fanout.OrderFanout.Deliver` | common/services/order_fanout.py:89-128 | a delivered offer is open, has its deadline and marks the order; any failure leaves it expired, the order as it was, and the slot given back |
| `Fanout.OrderFanout.OfferOrderToNextUser` | common/services/order_fanout.py:59-128 | the steps of one attempt and what it leaves: an empty selection ends in NO_TAKERS, a delivered offer in OFFERING with row and deadline, everything else leaves the order alone; a selection that raises writes nothing |
| `Fanout.OrderFanout.OfferEach` | common/services/order_fanout.py:147-154 | the attempts of the listed orders, each from the counters the last one left; after a raise the handlings not reached stay in hand |
| `Fanout.OrderFanout.SweepAndFanOut` | common/services/order_fanout.py:130-157 | everyone whose open offer on a due order ran out counts as not taken once per row and is released, no rating or release stays owed; for each order handled its final status, offer row and deadline from the selection, the limit and the delivery; rows and counters of everybody else unchanged; ledger and the other ratings untouched; the exact log, up to a raise |
| `Fanout.AttemptAddsOne` | common/services/order_fanout.py:80-128 | after an attempt the recipient of a delivered offer holds one unit more and nobody else's counter changes |
| `Fanout.SweepsAreSafe` | common/services/order_fanout.py:130-157 | a sweep that begins with nothing in hand and is not interrupted keeps every guarantee |
| `Fanout.OfferExpiry.ExpireOffers` | common/services/offer_expiry.py:33-45 | the open ones of the named offers expire, each counts as not taken and is released; offers already resolved are left alone |
| `Ordering.SortedIsUnique` | common/services/ranking.py:195-196 | a set of candidates has only one strictly sorted arrangement |
| `OnlineIndex.UnitsPriceIsFullPrice` | common/services/order_processing.py:74-78 | the sum in minor units is `full_price_for`, exactly, for two-decimal prices |
| `OnlineIndex.ZinterIsScan` | common/repositories/redis/online_index.py:63-75 | the weighted intersection finds exactly the listed users with all prices, at their price in minor units |
| `OnlineIndex.PackOnlineIndex.Add` | common/repositories/redis/online_index.py:39-50 | the index mirrors the profile, dropping sizes that lost their price |
| `OnlineIndex.PackOnlineIndex.Remove` | common/repositories/redis/online_index.py:52-58 | no trace of the user is left |
| `OnlineIndex.PackOnlineIndex.GetCheapestCandidates` | common/repositories/redis/online_index.py:63-75 | each user of the plain scan once, at its price |
| `OnlineIndex.PackOnlineIndex.FilterByMinTier` | common/repositories/redis/online_index.py:77-86 | exactly the listed users of at least that tier |
| `OnlineIndex.ZunionIsEarliest` | common/repositories/redis/online_index.py:106-112 | the union holds whoever is at one of the tiers, at the earliest time found |
| `OnlineIndex.CodeOnlineIndex.Add` | common/repositories/redis/online_index.py:93-94 | keeps an earlier time and leaves other tiers alone |
| `OnlineIndex.CodeOnlineIndex.GetCandidates` | common/repositories/redis/online_index.py:106-112 | everyone at one of the tiers once, in the order of the earliest time found, among equal times by id |
| `OnlineIndex.LongestOnlineFirst` | common/repositories/redis/online_index.py:106-112 | what the order of the queue is, said without the key: the earlier time first, then the lower id |
| `OnlineIndex.QueueTimeIsEntry` | common/repositories/redis/online_index.py:93-112 | a candidate is queued by the earliest time it came to one of the tiers asked for since it last left |
| `OnlineIndex.OnlineIndexRouter.Sync` | common/repositories/redis/online_index.py:120-131 | after any sequence of syncs, removals and clears both indexes agree with the profiles last synced; a score in the code index is the time of the sync that first brought the user to that tier since it last left |
| `OnlineIndex.NobodyInBoth` | common/repositories/redis/online_index.py:120-131 | nobody is in both indexes |
| `OnlineIndex.IndexIsScanOfSynced` | common/repositories/redis/online_index.py:63-75 | the intersection is exactly the users last synced as active, online, without codes and priced for every size, at `full_price_for` |
| `OnlineIndex.CodeCandidateIffReached` | common/repositories/redis/online_index.py:93-112 | a user is a candidate for a code order exactly when the highest tier it was synced at since it last left allows the codes |
| `OnlineIndex.CodeOffersTakeableIff` | common/services/ranking.py:288-291 | whatever `sync` is called with, code offers are takeable exactly for users whose tier was not lowered from one sync to the next while they stayed eligible |
| `Presence.CodeOffersAreTakeable` | bot/handlers/common.py:91-104 | under the callers there are, which leave the index before they enter it again, every code offer fits the profile last synced |
| `Presence.CodeOffersFitProfileIff` | bot/handlers/moderation.py:225-240 | against the stored profile it fits exactly when that still works with codes and has no lower tier than it went online with, since approving does not sync |
| `Presence.ApprovedAgainLower` | bot/handlers/moderation.py:225-240 | a sequence of calls that reaches the failure: approved, online, approved again at a lower tier |
| `Presence.PackOffersStandIff` | bot/handlers/moderation.py:200-240 | against the stored profile every pack offer can be taken at the price shown exactly when each size offered still has that price and is within the tier |
| `Presence.RepricedWhileOnline` | bot/handlers/moderation.py:184-206 | a sequence of calls that breaks it: a moderator changes a price of a user online |
| `Presence.LoweredWhileOnline` | common/repositories/redis/online_index.py:120-131 | two syncs in a row, which no caller makes, leave a user among candidates for codes it may not take |
| `Presence.ProfileDesk.ToggleOnline` | bot/handlers/common.py:91-104 | flips an active profile and syncs it; nobody in the code index was synced above its last tier |
| `Presence.ProfileDesk.Approve` | common/repositories/postgres/user_profiles.py:72-85 | changes the row only, codes dropping the prices; the index guarantee stays |
| `Presence.ProfileDesk.SaveProfile` | common/repositories/postgres/user_profiles.py:99-138 | resets the row to inactive and offline and forgets the user in the indexes |
| `Presence.ProfileDesk.Deactivate` | common/services/moderation.py:47-57 | back to inactive and offline, out of the indexes; raises for a missing row |
| `Presence.ProfileDesk.FullRestart` | bot/handlers/admin.py:98-110 | row and index entries are gone |
| `Presence.ProfileDesk.SwitchOff` | common/services/bot_switch.py:24-27 | everyone offline and both indexes empty |
| `Presence.ProfileDesk.Backfill` | scripts/backfill_online_price_index.py:20-33 | afterwards exactly the listed users are synced, as they are stored |
| `Ranking.RefusalRatesCompare` | common/services/ranking.py:35-40 | refusal rates compare as exact fractions, cross-multiplied; nothing done counts as nothing refused |
| `Ranking.KeyOrderIsPreference` | common/services/ranking.py:43-70 | the sort key means: the faster first, a missing speed last, then fewer refusals, more completed, cheaper, lower id |
| `Ranking.CheapestPriceBucket` | common/services/ranking.py:47-53 | exactly the rows nobody undercuts by more than 1% |
| `Ranking.RankingIsUnique` | common/services/ranking.py:56-70 | the ranking does not depend on the order of the rows |
| `Ranking.RankingIsEmptyIff` | common/services/ranking.py:192-197 | someone is ranked whenever anyone is eligible, unless prices are negative |
| `Ranking.SelectionIsUnique` | common/services/ranking.py:86-106 | two correct selections are the same list, so the sweep caches cannot show |
| `Ranking.TierFilterIsAllows` | common/services/ranking.py:199-212 | the filter, skipped cases included, keeps exactly the tiers that allow the sizes |
| `Ranking.OfferIsTakeable` | common/services/ranking.py:214-223 | an eligible row of the scan passes `validate_take`, and its price is the price taken at |
| `Ranking.EligibleIff` | common/services/ranking.py:192-212 | who is eligible: listed, not excluded, with a price for every size and a tier that allows each of them |
| `Ranking.SoonerIsAskedFirst` | common/services/ranking.py:43-70 | of two selected users, one whose every completion was quicker than each of the other's is asked first |
| `Ranking.PackRanking.Fetch` | common/services/ranking.py:96-106 | a cached fetch is what the index would answer |
| `Ranking.PackRanking.RatingStats` | common/services/ranking.py:168-175 | cached ratings are the current ones |
| `Ranking.PackRanking.ApplyTierFilter` | common/services/ranking.py:199-212 | keeps exactly the rows whose tier allows the sizes |
| `Ranking.PackRanking.SelectCandidates` | common/services/ranking.py:177-197 | with caches on or off: the sorted arrangement of exactly the eligible users within 1% of the cheapest, in the order `KeyOrderIsPreference` spells out |
| `Ranking.CodeSelectionIsUnique` | common/services/ranking.py:267-286 | two correct code selections are the same list |
| `Ranking.CodeSelectionMeans` | common/services/ranking.py:267-286 | who is selected, and in which order: the earlier time, then the lower id |
| `Ranking.CodeRanking.SelectCandidates` | common/services/ranking.py:267-286 | everyone at a tier that allows all the codes, without the excluded users, at the code price, longest online first and then by id |
| `Dispatch.ChosenMayTake` | common/services/ranking.py:177-223 | every candidate either strategy returns is online, not excluded, and admitted by `validate_take` at the price it is shown |
| `Dispatch.SelectsIsUnique` | common/services/order_fanout.py:65-68 | online profiles, ratings, exclusions and price determine the selection |
| `Dispatch.SelectedAreFresh` | common/services/order_fanout.py:65-68 | no selected user was offered the order before |
| `Dispatch.RankingExcludes` | common/services/order_fanout.py:65-68 | the strategies give the sweep selections without anybody asked before |
| `Dispatch.SweptMayTake` | common/services/order_fanout.py:140-154 | whoever a sweep reserves for an order was not asked before, is no moderator, and may take that order |
| `Dispatch.AdmittedTakeSucceedsIff` | common/services/order_processing.py:142-193 | for a user online with an admitted profile, `take` succeeds exactly while the offer is open |
| `Dispatch.ChosenTakes` | common/services/order_processing.py:142-193 | an open offer made to a ranked candidate can be taken, at the price shown, while the profile last synced is the current one |
| `Dispatch.Dispatcher.Rank` | common/services/order_fanout.py:65-68 | the strategy for the kind of order answers as specified, raising exactly for an undividable pack amount |
| `Dispatch.Dispatcher.OfferNext` | common/services/order_fanout.py:59-128 | ranking and offering together: the steps of one attempt over the selection of the ranking, and the status, row and deadline it ends with |
| `Dispatch.Dispatcher.Sweep` | common/services/order_fanout.py:130-157 | a whole sweep over the selections of the strategies: who is rated, that nothing stays owed, how each order handled ends, its exact log, and everyone reserved in it new to the order, no moderator, and able to take it |
| `RatingWindow.MeanSpeedFloors` | common/repositories/redis/rating.py:22-29 | the mean is the floor of the exact quotient |
| `RatingWindow.TotalsAdd` | common/repositories/redis/rating.py:25-28 | seconds add up over any division of the samples |
| `RatingWindow.SpeedOfOne` | common/repositories/redis/rating.py:22-29 | the speed of a single completion is its closing time less its taking time |
| `RatingWindow.MeanWithin` | common/repositories/redis/rating.py:22-29 | the speed lies between any bounds of the samples |
| `RatingWindow.PushThenTrim` | common/repositories/redis/rating.py:53-54 | a trim after every push keeps exactly the newest samples |
| `RatingWindow.RebuildEqualsReplay` | common/repositories/redis/rating.py:69-94 | rebuilding from newest-first samples stores what replaying the completions stores |
| `RatingWindow.RatingRepository.RecordCompletion` | common/repositories/redis/rating.py:45-56 | the list stays the newest window of the whole history |
| `RatingWindow.RatingRepository.RecordNotTaken` | common/repositories/redis/rating.py:61-67 | each user counts as often as it is named |
| `RatingWindow.RatingRepository.ReplaceUserStats` | common/repositories/redis/rating.py:69-94 | replaces counters and list; the list equals a replay |
| `RatingWindow.RatingRepository.AvgSpeed` | common/repositories/redis/rating.py:22-29 | the loop computes the mean: none without samples, within their bounds, the difference of the times for a single one |
| `RatingWindow.RatingRepository.Get` | common/repositories/redis/rating.py:96-107 | counters as stored, zero for a user without any; no speed without completions, otherwise the mean over the newest samples, which lies within their bounds |
| `RatingWindow.RatingRepository.GetMany` | common/repositories/redis/rating.py:109-131 | for every user asked for, what `get` returns: counters, and a speed within the bounds of the newest samples |
| `RatingBackfill.ScoredByStep` | common/services/ranking.py:225-251 | a step of the protocol moves the three counters of a user by exactly what it scores |
| `RatingBackfill.Rate` | common/repositories/redis/rating.py:45-67 | the rating calls keep the repository equal to the counters of the protocol, window included |
| `RatingBackfill.BackfillKeepsIff` | scripts/backfill_rating.py:16-44 | the script leaves the live counters of a user it writes alone exactly when the user completed or cancelled no code order, no cancellation is unrated, and as many of its offers ran out on open orders as were withdrawn on closed ones or are still to be rated |
| `RatingBackfill.BackfillCountsCodeOrders` | scripts/backfill_rating.py:16-30 | a race-free run with one code order completed: live counter 0, script 1 |
| `Timeouts.OrderTimeouts.Start` | common/services/order_timeouts.py:73-88 | the first job of the chain, due the first delay from now |
| `Timeouts.OrderTimeouts.RememberTaken` | common/repositories/redis/order_timeout_messages.py:28-48 | this very message is stored with its TTL, pings kept |
| `Timeouts.OrderTimeouts.Tick` | common/repositories/redis/order_timeout_messages.py:47-48 | exactly the keys past their TTL vanish, for every order, and the chain stays intact |
| `Timeouts.OrderTimeouts.Fire` | common/services/order_timeouts.py:60-71 | a due job becomes a running callback; a started order in work always has exactly one of the two |
| `Timeouts.OrderTimeouts.CheckInWork` | common/services/order_timeouts.py:107-111 | a callback of a resolved order ends |
| `Timeouts.OrderTimeouts.ScheduleNext` | common/services/order_timeouts.py:113-167 | the next job is due its delay from now, lateness carried along |
| `Timeouts.OrderTimeouts.AddPing` | common/repositories/redis/order_timeout_messages.py:50-51 | the key is there with the ping added; it has no TTL exactly when the message of the order was never stored, is past its TTL or was popped, whether the order is in work or not |
| `Timeouts.LatePing` | common/services/order_timeouts.py:113-137 | a sequence of steps that reaches it: the first job fires after the TTL |
| `Timeouts.PingAfterClear` | common/services/order_timeouts.py:113-137 | another: completed and cleared between the check of the callback and its ping |
| `Timeouts.OrderTimeouts.ExpireTaken` | common/services/order_timeouts.py:169-173 | never earlier than the three delays, and with the message still stored exactly while total lateness is under the buffer of 300 seconds |
| `Timeouts.OrderTimeouts.RenderTimedOut` | common/services/order_timeouts.py:175-189 | pops the record and renders the order as timed out, timed out or not, exactly when its message was stored, not popped and is within its TTL |
| `Timeouts.TimedOutThoughCompleted` | common/services/order_timeouts.py:169-173 | a sequence of steps that renders a completed order as timed out |
| `Timeouts.OrderTimeouts.Clear` | common/services/order_timeouts.py:97-105 | no job and no message of a resolved order is left |
| `Timeouts.OrderTimeouts.RunUndisturbed` | common/services/order_timeouts.py:113-173 | left alone and on time, the order is timed out exactly after the three delays |
| `Reconciliation.EachOnce` | common/services/external_order_api.py:166-185 | a code is newly redeemed or newly broken at most once |
| `Reconciliation.JudgeMeans` | common/services/external_order_api.py:187-343 | which answers redeem a code, which break it, and the amount a broken one is recorded with |
| `Reconciliation.AbsentPlayersMatch` | common/services/external_order_api.py:200-248 | an order without a player and an answer without one match, since both absent names read "None": the code counts as redeemed by the player |
| `Reconciliation.AddedReplaceBroken` | common/services/external_order_api.py:287-343 | every replacement stands for a code that broke, under the amount judged for it |
| `Reconciliation.NoMoreAddedThanBroken` | common/services/external_order_api.py:166-185 | replacements never outnumber the newly broken codes, fresh or not |
| `Reconciliation.PartitionIffHarmless` | common/services/external_order_api.py:166-185 | every original code ends in exactly one place exactly when no replacement lands on a code the order had, unless that one was kept unchanged |
| `Reconciliation.FreshReplacementsPartition` | common/services/external_order_api.py:166-185 | fresh replacement codes always give a partition |
| `Reconciliation.OthersAreReplacements` | common/services/external_order_api.py:166-185 | whatever else is unused afterwards replaces a newly broken code |
| `Reconciliation.CallPartitionIff` | common/services/external_order_api.py:166-185 | after the whole call every original code is in exactly one place exactly when no replacement request went unanswered and no replacement does harm |
| `Reconciliation.TwoPlacesIff` | common/services/external_order_api.py:166-185 | when the call raises, the codes in two places are exactly those it had judged redeemed or broken by then |
| `Reconciliation.RecordedAmountIff` | common/services/external_order_api.py:287-343 | a replacement is recorded under the amount asked for exactly when the old code was redeemed by somebody else |
| `Reconciliation.ReplacementAmountIff` | common/services/external_order_api.py:166-185 | so in the unused codes a full loop leaves: a replacement carries the amount of the code it stands for exactly in that case |
| `Reconciliation.CheckOrderFinished` | common/services/external_order_api.py:85-132 | the first deciding answer settles it, fraud when it names another player |
| `Reconciliation.ExternalOrderApi.CheckUnusedCode` | common/services/external_order_api.py:187-229 | redeemed exactly on a 400, or on a redeemed answer naming the player; broken exactly on a redeemed answer naming somebody else or an unredeemed one with another non-zero amount; otherwise left alone |
| `Reconciliation.ExternalOrderApi.HandleCheckCodeResponse` | common/services/external_order_api.py:231-361 | the branches of a 200 answer, in terms of the answer and the player, with what is recorded for the replacement |
| `Reconciliation.ExternalOrderApi.CheckUnusedCodes` | common/services/external_order_api.py:166-185 | which codes are newly redeemed, newly broken and still unused after the call, in terms of the answers and the player; and whether and where it raised |
| `Reconciliation.ExternalOrderApi.RemoveAndAdd` | common/services/external_order_api.py:181-184 | the deferred removals and additions |
| `PriceEntry.AcceptedPriceFits` | bot/forms/fields.py:59-65 | a price is accepted exactly when it is money, positive and within the cap; then it is the amount typed, and the index holds it exactly |
| `PriceEntry.PackForm.TogglePack` | bot/forms/fields.py:243-259 | a size is refused exactly when it is being added and not among the sizes of the tier; otherwise its selection flips |
| `PriceEntry.PackForm.EnsurePackagesSelected` | bot/forms/fields.py:267-283 | the early exits and the search for a size above the tier find whether the selection is non-empty and inside the tier |
| `PriceEntry.PackForm.PackagesDone` | bot/handlers/registration.py:67-80 | asks for prices exactly when the selection is ready, and then the queue is the selection |
| `PriceEntry.PackForm.CancelPack` | bot/forms/fields.py:262-264 | back to the grid with the queue emptied |
| `PriceEntry.PackForm.SubmitPackPrice` | bot/forms/fields.py:340-383 | accepted exactly when money, positive and within the cap; then that amount is stored for the first size asked and the queue gets one shorter, nothing else does; at the end exactly the selected sizes are priced, the others as they were stored, each positive and within the cap in force when typed |

## Left out

- Clocks: which open orders `list_due_for_fanout` returns and which deadlines are due is free; sweep limit and ordering are not modelled.
- Fanout.OrderFanout.SweepAndFanOut: is one schedule of `asyncio.gather`, order after order, with the tasks before a raise finished and those after it not begun; every other schedule is a run of the protocol, which the run theorems cover.
- Exceptions between a database commit and its Redis release, and a commit that fails after Redis was already written; the code has no compensation for them. Of the exceptions inside an attempt only that of the selection is modelled.
- Transactions and Lua scripts are atomic; isolation levels and the row lock of `lock_is_online` are not modelled.
- Presence.ProfileDesk.FullRestart: deleting the profile also deletes its offer rows and clears `taken_by` of its orders, by the foreign keys of migration 007; the protocol has no such step, and its results on offer rows and takers are for runs without one.
- Lifecycle.OrderLifecycle.Complete: has no branch for a missing profile, which the foreign key on `taken_by` rules out: a deletion clears the column, so the closing update would not have found the order, and once it has, the row is locked until the commit.
- Presence.ProfileDesk.ToggleOnline: row update and index call are one step, as in the other calls of the class; two calls for one profile at the same time are not modelled.
- Dispatch.ChosenTakes: speaks of the profile last synced; what a change of the row since then does is stated in Presence.CodeOffersFitProfileIff and Presence.PackOffersStandIff.
- Dispatch.Dispatcher.Sweep: takes the selections of a sweep as a function of order and exclusions, with index, ratings and price as at its start.
- RatingBackfill.BackfillKeepsIff: compares the three counters; the speed samples of the script are not compared with the live list.
- The refresh of an order by the API (`update_order`) and removal of orders: the job of an order is fixed when it is created.
- Decimal context limits, NUMERIC(14,2) rounding in the ledger and float rounding of refusal rates: exact reals are used. Redis scores are exact integers.
- Money.ParseMoney: ASCII digits and blanks only, where the regular expression also takes other Unicode digits and spaces.
- Ranking.CodeRanking.SelectCandidates: the code price is a parameter, as its setting may change at any time.
- Timeouts.OrderTimeouts.RunUndisturbed: message sending takes no time in it; all other timeout results hold for any duration.
- RatingWindow.RatingRepository.RecordCompletion: timestamps are whole seconds; the text encoding of a sample is not modelled.
- Reconciliation.ExternalOrderApi.CheckUnusedCodes: status-change requests and message texts are not modelled, responses are an oracle.
- PriceEntry.PackForm.PackagesDone: the tier does not change while the form is open.
- Telegram messages, keyboards, locales, language lookup, the hand-off of cancelled orders and the dispatch signal: input and output only; whether a message arrives is a parameter.
- Local-environment shortcuts, authorisation and logging.
- In-place mutation of Python lists by the caches: fetched lists are values here, so a cached list cannot be changed through an alias.
