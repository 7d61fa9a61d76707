# A verified model of the marketplace services

The repository is a FastAPI and Postgres marketplace: customers order from the seller who referred them, sellers
deliver themselves or ask for a driver, admins oversee. This project models the services that are state machines over
shared tables, and the smaller kernels they depend on, in Dafny 4.11. `dafny verify dfyconfig.toml` checks all of it.

## How the model is organised

Tables are maps from primary keys to rows (sequences where insertion order matters). Each service call is specified as a
function from the tables it finds to the tables it leaves and its outcome. The services themselves are classes whose
methods update those tables step by step, as the Python does, and are proved to compute that function. What a call
answers and writes is stated a second time on the rows alone, without the functions that compute it. Properties of all
runs are lemmas by induction over sequences of calls.

| files | what they hold |
|---|---|
| `Common.dfy` | identifiers, the clock, roles, error codes, `scalar_one_or_none` |
| `Checkout.dfy`, `CheckoutLocks.dfy` | the arithmetic of a checkout; concurrent checkouts under row locks |
| `Marketplace.dfy`, `OrderService.dfy` | the order tables with every call of the order service and the delivery flow; the imperative service |
| `Answers.dfy`, `Effects.dfy`, `Frames.dfy` | what a call answers and writes, said of the rows: who gets through and when, which refusal, each column; what can happen next; which tables each group of calls leaves alone |
| `Runs.dfy` | runs of those calls and of what other services write beside them, with the history no table stores: the stock each product was listed with, orders ever placed, orders ever completed |
| `Lifecycle.dfy`, `Fulfilment.dfy`, `FulfilmentLimits.dfy`, `Stock.dfy`, `Ledger.dfy`, `Completion.dfy`, `Retention.dfy`, `DeliveryCodes.dfy` | one property of every run each |
| `Histories.dfy` | runs from an empty order table: a self-delivery to its end, and those in which the delivery flow breaks a property |
| `Visibility.dfy`, `Authority.dfy` | the three rules about who may see an order; who may move it |
| `RefreshTokens.dfy`, `AuthService.dfy` | refresh-token rotation with its lineages; the imperative service |
| `Fanout.dfy`, `Indexes.dfy`, `Gateway.dfy` | the WebSocket fanout as a relation; its two indexes; the mutable registry |
| `Invites.dfy`, `Admissions.dfy`, `InviteService.dfy` | invites, signups and the referral graph; whom a link admits and why not; the imperative service |
| `Base64Url.dfy`, `Pagination.dfy`, `Slugs.dfy` | the codec pair, the admin lists, store slugs |

A call reads the clock once, and the clock does not go back within a run. Generated keys and tokens are new. Hashing is
injective, so a table keyed by a digest is keyed by the plaintext. A failing call of the order service leaves the tables
as they were, as the request session rolls back. Configured values are parameters. A unique constraint that a
call relies on, such as one delivery per order (`backend/app/models/delivery.py:45`), is a precondition where no
theorem about runs provides it. Enumerated columns hold only their declared values, so the branches
behind the last role or status are not part of the model.

## What does not hold, and exactly when it does

* `complete_delivery` of the delivery flow has no status guard. A right code keeps the lifecycle exactly on an order out
  for delivery, or on one delivered at that very instant: it lets earlier orders skip stages, reopens terminal ones, and
  moves the delivery time of one delivered before. A run keeps the lifecycle at every step exactly when all its right
  codes come in time. The call does not write the delivery row, so it keeps delivery rows and order statuses in step
  exactly on orders that were delivered before.
* The flow's first `accept_order` keeps them in step exactly when the caller is already on the delivery row or, where
  there is none, the order is cancelled and an assignment of it names the caller. A run of both services keeps them in
  step at every step exactly when all calls of the flow meet these conditions. Runs from an empty order table reach the
  failing states.
* `resolve_role` raises exactly for a driver who is off the delivery and has two active assignments on the order. No run
  of the order service reaches such a state, but no constraint of the tables forbids it.
* A suspension refuses logins; an open session of the suspended account goes on refreshing its tokens.
* An admin with a seller profile may own a referral link. It is reported valid and admits nobody.
* The decoders are lenient. Encoding undoes decoding exactly on canonical text.
* Keyset pagination loses rows exactly when a page ends between two rows of one timestamp.
* The documentation of the order and snapshot tables says that retention starts, and the snapshot is written, when an
  order is delivered (`backend/app/models/order.py`, `backend/app/models/order_analytics_snapshot.py`). The code does
  both at completion, and starts retention at cancellation for cancelled orders. The model follows the code.

## Model

| member | source | states |
|---|---|---|
| Checkout.Aggregate | backend/app/services/order_service.py:188-193 | the loop over the lines leaves each product's total quantity, with products in first-seen order |
| Checkout.AggregationPreservesSums | backend/app/services/order_service.py:188-226 | for every weight, the sum over aggregated products is the sum over the lines as written |
| Checkout.PlanIsWorthItsLines | backend/app/services/order_service.py:223-255 | the subtotal is the line-by-line total, and the written order items carry the same total and, product by product, the same units |
| Checkout.AcceptedIffOrderableAndFits | backend/app/services/order_service.py:162-207 | a checkout is accepted exactly when the caller is a referred customer, every product is visible and active at the one seller, and no product's lines together exceed its stock |
| Checkout.PlanTakesItsLinesFromStock | backend/app/services/order_service.py:209-214 | finite stock falls by exactly what the lines ask for; unlimited stock and every other column stay |
| Checkout.SchemaBoundsTheAggregates | backend/app/schemas/orders.py:40-47 | under the request limits every aggregate and the snapshot's item count lie between 1 and 1,000,000 |
| Checkout.DecideReadsOnlyItsRows | backend/app/services/order_service.py:172-186 | the decision and the writes depend on the locked rows only |
| CheckoutLocks.NeverDeadlocked | backend/app/services/order_service.py:172-181 | with rows locked one at a time in ascending key order, some unfinished call can always step |
| CheckoutLocks.StepKeepsSound | backend/app/services/order_service.py:172-214 | locking and committing keep locks exclusive, keep what was read under a lock true, and keep the committed rows equal to a serial history |
| CheckoutLocks.EveryInterleavingIsSerial | backend/app/services/order_service.py:172-214 | every interleaving of any number of checkouts is finite, can go on until all have ended, and leaves the rows that a serial run in commit order leaves |
| CheckoutLocks.SerialStepTakesWhatFits | backend/app/services/order_service.py:202-214 | one serial checkout takes from finite stock what was ordered if everything fits, and otherwise nothing |
| OrderService.Service.CreateOrder | backend/app/services/order_service.py:148-260 | goes through exactly when everything is orderable and fits; then the one new row is pending since now, in the customer's and their seller's name, costs the lines at the rows' prices as do its items, one for each product, and the lines are out of stock; a refusal changes nothing |
| OrderService.Service.CheckProducts | backend/app/services/order_service.py:201-207 | the loop stops at the first product that is invisible or short of stock |
| OrderService.Service.TakeStock | backend/app/services/order_service.py:209-214 | the loop writes exactly the sold quantities into the product rows |
| OrderService.Service.AcceptOrder | backend/app/services/order_service.py:268-300 | goes through exactly for the order's own seller while it is pending; then only that row changed, to accepted, with its life kept; a refusal changes nothing |
| OrderService.Service.MarkPreparing | backend/app/services/order_service.py:303-319 | goes through exactly for the order's own seller once it is accepted; then only that row changed, to preparing, with its life kept; a refusal changes nothing |
| OrderService.Service.ChooseSelfDelivery | backend/app/services/order_service.py:322-367 | goes through exactly while the order is accepted or preparing and nothing delivers it; then its one delivery is the inserted row, waiting, in the seller's name and without driver, and no other row changed |
| OrderService.Service.RequestDriver | backend/app/services/order_service.py:370-409 | goes through exactly while the order is accepted or preparing and nothing delivers it; then its one active assignment is the inserted row, requested by the seller now and naming no driver, and no other row changed |
| OrderService.Service.AssignDriver | backend/app/services/order_service.py:412-465 | goes through exactly for an admin, an active driver and an order whose active assignments all lack a driver; then the latest requested one, and no other row, is assigned to the driver by the admin now and keeps who asked when |
| OrderService.Service.OutForDelivery | backend/app/services/order_service.py:468-544 | goes through exactly for the own seller or the driver that the one delivery, or without one the one assignment, names, and on a self-delivery for the seller alone, while the order is preparing and was not out; then the order is out since now and its one delivery in transit since now; a refusal changes nothing |
| OrderService.Service.MarkDelivered | backend/app/services/order_service.py:547-590 | goes through exactly for the own seller or the driver its one delivery names, and on a self-delivery for the seller alone, while the order is out; then both rows are delivered now, with the whole seconds since departure written once; a refusal changes nothing |
| OrderService.Service.CompleteOrder | backend/app/services/order_service.py:593-615 | goes through exactly for the customer of a delivered order; then it is completed now and in the ledger; a refusal changes nothing |
| OrderService.Service.InsertSnapshot | backend/app/services/order_service.py:618-673 | afterwards the order has a row, every other order has one exactly if it had one, no row moved, and a new row has each column from the order, the seller and the delivery |
| OrderService.Service.CancelOrder | backend/app/services/order_service.py:676-732 | goes through exactly for whom the stage allows; then the order is cancelled now and exactly its active assignments are dropped; a refusal changes nothing |
| OrderService.Service.DeleteOrder | backend/app/services/order_service.py:817-867 | goes through exactly for whom the order concerns after its period; then no row of any table names it, all rows of other orders are as they were, and the ledger only grew and has a completed order's sale |
| OrderService.Service.RunPurgeJob | backend/app/services/order_service.py:870-930 | both loops of the job, over whatever rows the two queries returned: an order is gone only after its retention period, completed now and booked only after its grace period, and otherwise as it was |
| OrderService.Service.UpdateSettings | backend/app/services/order_service.py:942-967 | goes through exactly with positive values; each one given is stored, one not given stays or is its default; a refusal changes nothing |
| OrderService.Service.DriverAccept | backend/app/services/delivery_flow_service.py:51-95 | goes through exactly for a driver on an open order with at most one delivery; the first acceptance issues an unused code and writes the driver onto the one delivery, a second one changes nothing |
| OrderService.Service.CompleteDelivery | backend/app/services/delivery_flow_service.py:136-200 | the code is right exactly if it is unlocked and the one issued; a right one delivers, a wrong one costs an attempt and the third the lock, on code and order |
| OrderService.Service.PostOrderMessage | backend/app/services/delivery_flow_service.py:274-317 | goes through exactly for the customer or the driver on the delivery, between acceptance and delivery; then one message of theirs, in their role, ends the chat |
| Effects.AcceptedOnce | backend/app/services/order_service.py:284-319 | accepting happens once, by the order's own seller, and opens preparing, which was refused before |
| Effects.PreparedOnce | backend/app/services/order_service.py:303-319 | preparing happens once, between accepting and departure |
| Effects.RefusedExactlyWhenNot | backend/app/services/order_service.py:331-356 | the lookups of both choices let a seller through exactly while nothing delivers the order |
| Effects.SelfDeliveryChosenOnce | backend/app/services/order_service.py:322-367 | after self-delivery was chosen both choices are refused to everybody at any time |
| Effects.DriverRequestedOnce | backend/app/services/order_service.py:370-409 | after a driver was asked for both choices are refused to everybody at any time |
| Effects.DriverAssignedOnce | backend/app/services/order_service.py:412-465 | the latest request gets the driver, nothing else changes, and a second assignment is refused |
| Effects.AssignedDriverMayLeave | backend/app/services/order_service.py:412-544 | the assigned driver of an order being prepared gets through with the departure |
| Effects.SnapshotWrittenOnce | backend/app/services/order_service.py:618-673 | writing a snapshot again, later and from changed tables, leaves the ledger as the first time |
| Effects.DeletedOnce | backend/app/services/order_service.py:817-867 | who can delete when, that all that names the order goes and nothing else, and that the sale stays booked |
| Answers.CheckoutAnswers | backend/app/services/order_service.py:148-260 | when a checkout goes through and every column it writes, without the functions that compute it: total, subtotal, line-by-line price and item total are one number, the store is that of the least ordered product, each ordered product has one item with all its units |
| Answers.RefusedCheckoutSaysWhy | backend/app/services/order_service.py:162-207 | which refusal: of known products the first one, in the order of the lines, that is invisible or short of stock |
| Answers.StageRefusals | backend/app/services/order_service.py:268-319 | accepting and preparing: which refusal when, and the two columns written |
| Answers.ChoiceRefusals | backend/app/services/order_service.py:322-367 | why a fulfilment choice is refused, reason by reason |
| Answers.AssigningWrites | backend/app/services/order_service.py:412-465 | every column of the row that gets the driver |
| Answers.AssignmentRefusals | backend/app/services/order_service.py:412-465 | why an assignment is refused, and that none is without a request that lacks a driver |
| Answers.LeavesExactlyWhen | backend/app/services/order_service.py:468-544 | departure: an iff over the rows for both fulfilment modes, and every column written |
| Answers.LeavingRefusals | backend/app/services/order_service.py:468-544 | which refusal of a departure when |
| Answers.ArrivesExactlyWhen | backend/app/services/order_service.py:547-590 | arrival: an iff over the rows for both fulfilment modes, and every column written |
| Answers.ArrivalRefusals | backend/app/services/order_service.py:547-576 | which refusal of an arrival when |
| Answers.ConfirmedExactlyWhen | backend/app/services/order_service.py:593-615 | confirming: an iff over role, ownership and status, and every column written |
| Answers.CancelledExactlyWhen | backend/app/services/order_service.py:676-732 | cancelling: an iff over role, ownership and status, and every column written |
| Answers.CancellingDropsTheDriver | backend/app/services/order_service.py:714-728 | the order's requested, assigned and taken assignments are dropped, and no other |
| Answers.CancellationRefusals | backend/app/services/order_service.py:676-713 | which refusal of a cancellation when |
| Answers.SnapshotDescribes | backend/app/services/order_service.py:618-673 | each column of a new snapshot, from the order, the seller's profile and the delivery |
| Answers.SettingsAfter | backend/app/services/order_service.py:942-967 | both settings after a change, with the defaults of 30 days and 72 hours |
| Answers.DeletionRefusals | backend/app/services/order_service.py:817-852 | which refusal of a deletion when |
| Answers.TakenExactlyWhen | backend/app/services/delivery_flow_service.py:51-95 | the driver's acceptance: an iff over the rows, and every column written |
| Answers.CodeSubmittedExactlyWhen | backend/app/services/delivery_flow_service.py:136-200 | which answer to a code when, with the attempts that are left, and the audit row of each attempt |
| Answers.SubmittingWrites | backend/app/services/delivery_flow_service.py:160-200 | what a locked, a wrong and a right code write |
| Answers.PostedExactlyWhen | backend/app/services/delivery_flow_service.py:274-317 | who may write into the chat when |
| Answers.PostingWrites | backend/app/services/delivery_flow_service.py:304-317 | the appended message |
| Lifecycle.OrderStep | backend/app/services/order_service.py:284-319 | each call takes an order nowhere, one stage up, or to cancelled before delivery, and rewrites no timestamp |
| Lifecycle.RunKeepsLives | backend/app/services/order_service.py:284-732 | over every run of both services whose right codes come in time the reached stages form a prefix that matches the status with times that do not decrease; statuses only climb or jump once to cancelled; terminal statuses are final; no timestamp is rewritten |
| Lifecycle.EveryRunKeepsLives | backend/app/services/order_service.py:284-732 | the same from an empty order table |
| Lifecycle.SubmittedCodeKeepsTheLifecycleIff | backend/app/services/delivery_flow_service.py:184-190 | a right code keeps the stages in order, the status climbing and every timestamp exactly on an order out for delivery or delivered at that very instant |
| Lifecycle.RunLivesExactlyWhenCodesAreInTime | backend/app/services/delivery_flow_service.py:136-200 | a run of both services keeps the lifecycle at every step exactly when all its right codes come in time |
| Lifecycle.SubmittedCodeReopensACompletedOrder | backend/app/services/delivery_flow_service.py:184-190 | a right code takes a completed order back to delivered |
| Fulfilment.StepIsGood | backend/app/services/order_service.py:322-579 | every call keeps the delivery and assignment rows exclusive and none of its lookups meets two rows |
| Fulfilment.EveryRunIsGood | backend/app/services/order_service.py:338-579 | over every run an order has at most one delivery and one assignment, self-delivery excludes assignments, a driver's delivery carries the assigned driver, and delivery and order status agree |
| Fulfilment.LookupsAreUnambiguous | backend/app/services/order_service.py:338-363 | in every such state the three lookups behind scalar_one_or_none find at most one row |
| FulfilmentLimits.SubmittedCodeKeepsFulfilmentIff | backend/app/services/delivery_flow_service.py:184-200 | a right code keeps delivery rows and statuses in step exactly if the order was delivered before |
| FulfilmentLimits.AcceptanceKeepsFulfilmentIff | backend/app/services/delivery_flow_service.py:64-95 | a first acceptance keeps them in step exactly if the caller is already on the delivery row or, where there is none, the order is cancelled and an assignment names the caller |
| FulfilmentLimits.RunIsFulfilledExactlyWhen | backend/app/services/delivery_flow_service.py:51-200 | a run of both services keeps them in step at every step exactly when all calls of the flow meet these two conditions |
| Histories.CodeSubmitted | backend/app/services/delivery_flow_service.py:136-200 | in any shop that can serve an order: the assigned driver leaves, takes the code and submits it, and the rows are in step until then and not after |
| Histories.Reopening | backend/app/services/delivery_flow_service.py:184-190 | the customer confirms, and a second submission takes the completed order back to delivered |
| Histories.SecondDelivery | backend/app/services/delivery_flow_service.py:184-190 | a second submission a moment later moves the delivery time |
| Histories.EarlyAcceptance | backend/app/services/delivery_flow_service.py:66-82 | the assigned driver accepts before leaving, and an order being prepared has a delivery in transit |
| Histories.FailuresAreReachable | backend/app/services/delivery_flow_service.py:51-200 | there is such a shop, and its runs from an empty order table reach all four states |
| Histories.SelfDelivery | backend/app/services/order_service.py:148-673 | in any shop that can serve an order: placing, accepting, preparing, choosing self-delivery, leaving, arriving and confirming all go through, whenever it arrives, and the sale is booked with the whole seconds of the way |
| Histories.SelfDeliveryEnds | backend/app/services/order_service.py:547-590 | in a concrete shop ninety and a half seconds on the way are booked as 90 |
| Stock.OnlyCheckoutTakesStock | backend/app/services/order_service.py:713-927 | no call of either service but an accepted checkout writes a product row: not cancelling, deleting, purging or refusing |
| Stock.CheckoutBalances | backend/app/services/order_service.py:209-255 | what leaves the stock is what the new order's items hold |
| Stock.EveryRunConserves | backend/app/services/order_service.py:202-214 | over every run the stock a product was listed with is current stock plus everything ever ordered, and unlimited stays unlimited, while the catalogue may change and grow otherwise |
| Ledger.StepAppends | backend/app/services/order_service.py:618-673 | every call leaves the old ledger as a prefix and appends one row per newly completed order |
| Ledger.RunKeepsBooked | backend/app/services/order_service.py:608-673 | over every run of both services the ledger has one row for each order ever completed and none for others, and a written row is never changed or removed |
| Ledger.EveryRunIsBooked | backend/app/services/order_service.py:608-673 | the same from an empty order table |
| Ledger.SnapshotsOnDeletionAreNoOps | backend/app/services/order_service.py:854-861 | the snapshot that deletion and purge write again is always there already |
| Ledger.LifetimeMetricsSurviveDeletion | backend/app/services/seller_service.py:139-150 | a seller's lifetime sum and count are those of all their ever-completed orders, deleted or not |
| Ledger.SellersAddUpToThePlatform | backend/app/services/admin_service.py:276-286 | the per-seller sums and counts add up to the platform's |
| Completion.EveryRunIsPriced | backend/app/services/order_service.py:223-255 | after every run every order costs what its items cost, and every snapshot has the worth and the units of the items ordered |
| Completion.LifetimeSalesAreWhatWasAsked | backend/app/services/seller_service.py:139-150 | after every run a seller's lifetime sales are the sum over the accepted checkouts of all their ever-completed orders, line by line at the prices listed at the checkout, whatever was repriced, deleted or purged since |
| Retention.RetentionTestsCoincide | backend/app/services/order_service.py:842-852 | at any instant a caller entitled to the order may delete it exactly when the purge query would return it, which is when its retention period is over |
| Retention.JustCompletedIsNotExpired | backend/app/services/order_service.py:879-915 | an order completed in a run of the job is not purged in that run |
| Retention.RowsOutliveTheirPeriod | backend/app/services/order_service.py:842-930 | an order row disappears only by deletion or purge, and only after its retention period |
| Retention.SecondPurgeChangesNothing | backend/app/services/order_service.py:879-930 | with no row skipped as locked, a second run at the same instant finds no row and changes nothing |
| Retention.StepKeepsSettings | backend/app/services/order_service.py:942-967 | no call makes the retention or grace period shorter than one |
| Completion.DueExactlyWhenGraceIsOver | backend/app/services/order_service.py:883-896 | the auto-complete query returns exactly the undeleted delivered orders whose grace period, in microseconds, is over |
| Completion.PurgeTouchesOnlyTheOverdue | backend/app/services/order_service.py:870-930 | whatever is skipped, the job erases only orders past their period and completes, now and booked, only those past their grace |
| Completion.PurgeCompletesAllOverdue | backend/app/services/order_service.py:882-904 | with no row skipped it completes and books every order past its grace |
| Completion.PurgeErasesAllOverdue | backend/app/services/order_service.py:906-928 | with no row skipped it erases every order past its period |
| Completion.RunCompletes | backend/app/services/order_service.py:593-904 | over every run of both services each order that comes to be completed was delivered and then confirmed by its own customer, or overdue when the job ran |
| DeliveryCodes.RunKeepsCodes | backend/app/services/delivery_flow_service.py:51-200 | over every run a code exists exactly for accepted orders, its counter is the failed attempts of the audit log capped at three, it is locked exactly at three and mirrored on the order, and the first code, driver and acceptance time stand |
| DeliveryCodes.EveryRunKeepsCodes | backend/app/services/delivery_flow_service.py:51-200 | the same from an empty order table |
| DeliveryCodes.SecondAcceptanceChangesNothing | backend/app/services/delivery_flow_service.py:61-64 | an accepted order's second acceptance changes no table |
| DeliveryCodes.MessagesNeedAnOpenChat | backend/app/services/delivery_flow_service.py:282-317 | a message is only added by posting, between acceptance and first delivery |
| DeliveryCodes.CompletionArchivesTheChat | backend/app/services/delivery_flow_service.py:192-197 | a right code archives every message of the order and keeps earlier archive times |
| Visibility.ListedExactlyWhenFetched | backend/app/services/order_service.py:114-140 | in every state an order is in the caller's list, before its limit, exactly when fetching it succeeds |
| Visibility.FetchedExactlyWhen | backend/app/services/order_service.py:114-140 | fetching succeeds exactly for those the order concerns, by role, ownership, delivery and assignment |
| Visibility.TrackedExactlyWhenFetched | backend/app/services/delivery_tracking_service.py:76-107 | the tracking role is not none exactly when fetching succeeds, unless the lookup raises; and exactly when it raises |
| Visibility.TrackedInTheirRole | backend/app/services/delivery_tracking_service.py:76-107 | whoever the order concerns is tracked in their own role and everybody else in none |
| Visibility.InternalMeansNotACustomer | backend/app/services/delivery_tracking_service.py:110-111 | the internal roles are exactly those of callers who may see the order and are not customers |
| Visibility.TwoAssignmentsRaise | backend/app/services/delivery_tracking_service.py:97-106 | two assignments of one driver make resolve_role raise |
| Visibility.RulesCoincideAfterEveryRun | backend/app/services/order_service.py:754-794 | after every run of the order service the three rules coincide and none raises |
| Authority.OnlyMoversMove | backend/app/services/order_service.py:284-732 | a transition that goes through was made by the one whose move it is: seller, carrier, customer or, for cancelling, whom the stage allows; and the caller can see the order |
| Authority.OnlyViewersDelete | backend/app/services/order_service.py:829-840 | only a caller who can see the order deletes it |
| RefreshTokens.StepIsSound | backend/app/services/auth_service.py:53-334 | every call keeps the lineages a partition of the tokens in which only the newest token can be live |
| RefreshTokens.EveryLineageHasOneLiveToken | backend/app/services/auth_service.py:227-303 | after every run each lineage has at most one unrevoked token and it is the newest |
| RefreshTokens.LiveTokensAreBounded | backend/app/services/auth_service.py:53-334 | a user never has more unrevoked tokens than logins and signups that issued one |
| RefreshTokens.RevocationIsPermanent | backend/app/services/auth_service.py:280-334 | a revoked row is never written again |
| RefreshTokens.RotatesAtMostOnce | backend/app/services/auth_service.py:227-303 | over every run each token is rotated successfully at most once, a revoked one never |
| RefreshTokens.ReuseRevokesTheUser | backend/app/services/auth_service.py:250-262 | presenting a revoked token leaves its user without unrevoked tokens and all other users' rows unchanged |
| RefreshTokens.ReplayEndsEverySession | backend/app/services/auth_service.py:227-262 | whoever presents a rotated token again, after any run in between, ends all sessions of its user |
| RefreshTokens.RefreshIssuesExactlyWhen | backend/app/services/auth_service.py:246-303 | exactly when a refresh issues a token, every column of the old and the new row, and that any refusal but a reuse changes nothing |
| RefreshTokens.RefreshRefusals | backend/app/services/auth_service.py:243-278 | which refusal of a refresh when |
| RefreshTokens.LoginIssuesExactlyWhen | backend/app/services/auth_service.py:183-224 | a login issues a token exactly to the one undeleted account with the email, on its own password, active and not suspended; then its live tokens grow by exactly that one, with its device and expiry; a refusal changes nothing |
| RefreshTokens.LoginRefusals | backend/app/services/auth_service.py:183-211 | a wrong password, an inactive account and an unknown email get one answer, and a suspension is told only with the right password |
| RefreshTokens.SignUpIssues | backend/app/services/auth_service.py:140-178 | a signup opens the account's first session |
| RefreshTokens.BulkRevocationStamps | backend/app/services/auth_service.py:250-334 | reuse and logout_all stamp exactly the user's live tokens |
| RefreshTokens.SuspensionStopsLoginsOnly | backend/app/services/auth_service.py:205-278 | a suspended account cannot log in, while its open session can refresh |
| RefreshTokens.LogoutEndsWhatItNames | backend/app/services/auth_service.py:306-334 | logout stamps one live token and nothing else, logout_all ends all of one user's |
| AuthService.Service.Login | backend/app/services/auth_service.py:183-224 | the checks in order and the first token of a new lineage; a token is issued exactly on the password of an active account that is not suspended, and adds one fresh row |
| AuthService.Service.Refresh | backend/app/services/auth_service.py:227-303 | the assignments of the rotation compute the specified step and keep the lineages sound |
| AuthService.Service.SignUp | backend/app/services/auth_service.py:148-178 | the new account starts a lineage |
| AuthService.Service.Logout | backend/app/services/auth_service.py:306-318 | only an unrevoked row is written |
| AuthService.Service.LogoutAll | backend/app/services/auth_service.py:321-334 | the bulk update computes the specified table |
| Indexes.PutAddsThePair | backend/app/ws/gateway.py:104-107 | one subscription keeps the two indexes in agreement and adds one pair to the relation they stand for |
| Indexes.TakeDropsThePair | backend/app/ws/gateway.py:109-118 | one removal keeps agreement, stores no empty topic and drops one pair |
| Indexes.TakeAllDropsTheConnection | backend/app/ws/gateway.py:171-179 | following the connection's own set removes it from every topic and nobody else from any |
| Indexes.DisconnectedIsNowhere | backend/app/ws/gateway.py:171-187 | in a relation without a connection's pairs every bucket lacks it and keeps everybody else |
| Indexes.PutInAddsThePair | backend/app/ws/gateway.py:127-138 | the same for one delivery bucket, with the other bucket untouched |
| Indexes.TakeOutDropsThePairs | backend/app/ws/gateway.py:140-150 | the same for removal from both delivery buckets |
| Indexes.TakeOutAllDropsTheConnection | backend/app/ws/gateway.py:180-187 | the same for all delivery topics of a connection |
| Gateway.ConnectionRegistry.Subscribe | backend/app/ws/gateway.py:104-107 | the two index updates refine adding a pair |
| Gateway.ConnectionRegistry.Unsubscribe | backend/app/ws/gateway.py:109-118 | the two index updates refine removing a pair |
| Gateway.ConnectionRegistry.SubscribeDelivery | backend/app/ws/gateway.py:127-138 | refines adding a pair to one bucket |
| Gateway.ConnectionRegistry.UnsubscribeDelivery | backend/app/ws/gateway.py:140-150 | refines removing the pair from both buckets |
| Gateway.ConnectionRegistry.DisconnectAll | backend/app/ws/gateway.py:171-187 | both loops refine removing every pair of the connection: it is in no bucket and follows nothing, and every other connection is in the buckets it was in |
| Gateway.ConnectionRegistry.SubscribersOf | backend/app/ws/gateway.py:120-124 | returns exactly the connections related to the conversation |
| Gateway.ConnectionRegistry.DeliveryInternalSubscribers | backend/app/ws/gateway.py:152-159 | returns exactly the internal followers of the order |
| Gateway.ConnectionRegistry.DeliveryCustomerSubscribers | backend/app/ws/gateway.py:161-168 | returns exactly the customer followers of the order |
| Gateway.ConnectionRegistry.BroadcastLocation | backend/app/ws/gateway.py:255-269 | every socket gets one copy of the event if its connection is an internal follower of the order and alive, and none otherwise |
| Gateway.ConnectionRegistry.BroadcastChat | backend/app/ws/gateway.py:216-225 | every socket gets one copy of the event if its connection follows the conversation and is alive, and none otherwise |
| Gateway.ConnectionRegistry.BroadcastAll | backend/app/ws/gateway.py:272-293 | both loops: every socket gets one copy for each bucket its live connection is in |
| Gateway.ConnectionRegistry.HandleDeliverySubscribe | backend/app/ws/gateway.py:351-432 | the caller ends up in the bucket of their role exactly when they may see the order and the lookup does not raise, and is disconnected otherwise |
| Fanout.ResolvedBucket | backend/app/ws/gateway.py:351-370 | the resolved bucket is the customer one for the order's customer, the internal one for its other viewers, none for anybody else |
| Fanout.RunIsSafe | backend/app/ws/gateway.py:88-293 | every run of handler calls, each subscribe resolved against the tables it finds, keeps each connection in the bucket of its role and coordinates away from customers |
| Fanout.NoRunLeaksALocation | backend/app/ws/gateway.py:255-269 | no run, whatever tables its subscribes find, sends a location event to a connection authenticated as a customer |
| Fanout.EachFollowerGetsOneCopy | backend/app/ws/gateway.py:272-293 | after every run the buckets are disjoint for each connection and order, and an event for all reaches each live follower exactly once |
| Fanout.EventsReachTheirFollowers | backend/app/ws/gateway.py:216-269 | after every run a location reaches each live internal follower and a chat event each live follower of its conversation, once, and nobody else |
| Fanout.RunIsHeard | backend/app/ws/gateway.py:88-293 | over every run a connection receives, in order, exactly the events of the topics it followed when they were sent |
| Fanout.WatchersHearLocations | backend/app/ws/gateway.py:255-432 | whoever may see an order and subscribes to it hears its next progress event, and its next location unless they are its customer |
| Fanout.UnsubscribeUndoesSubscribe | backend/app/ws/gateway.py:104-150 | unsubscribing restores the relation as it was before a first subscription |
| Invites.StepIsSound | backend/app/services/invite_service.py:94-415 | every call keeps use counts, uniqueness, roles and the referral forest |
| Invites.UsesAreCounted | backend/app/services/invite_service.py:412-415 | after every run used_count is the number of referral rows naming the invite, and an admin invite was used at most once |
| Invites.LookupsAreUnambiguous | backend/app/services/invite_service.py:152-162 | after every run no lookup by active referral, token or email meets two rows |
| Invites.ChainsOfReferrersEnd | backend/app/services/auth_service.py:157-166 | after every run each user is referred at most once, and no chain of referrers repeats a user or is longer than the table allows |
| Invites.ReferredUsersFollowTheirLink | backend/app/services/auth_service.py:122-155 | who came by a seller's link is a customer or seller who follows that seller, and admins and drivers came by an admin's invite |
| Invites.ValidExactlyWhenConsumable | backend/app/services/invite_service.py:297-415 | the public validity flag and the consuming checks agree up to the role and the issuer |
| Invites.AdminReferralsAdmitNobody | backend/app/services/invite_service.py:393-401 | a referral link owned by an admin is reported valid and never consumable |
| Invites.ReferralIsStable | backend/app/services/invite_service.py:128-230 | asking for the referral link twice returns the same link, and after regenerating the new one |
| Admissions.WelcomedExactlyWhen | backend/app/services/auth_service.py:103-178 | a signup is welcomed exactly with one link that carries the token, is unrevoked, has not expired by now and has a use left, that entitles to the role, and a free email; and every column it writes |
| Admissions.RefusedSignUpSaysWhy | backend/app/services/invite_service.py:345-415 | which refusal of a signup when, in the order of the checks |
| Admissions.ReportedExactly | backend/app/services/invite_service.py:297-342 | each flag of the public check, from the row |
| Admissions.InvitedExactlyWhen | backend/app/services/invite_service.py:94-125 | only an admin invites, and every column of the link |
| Admissions.ObtainedExactlyWhen | backend/app/services/invite_service.py:128-179 | who gets a referral link, and that it is the active one or a new one that never ends |
| Admissions.RegeneratedExactlyWhen | backend/app/services/invite_service.py:182-230 | exactly the seller's active referrals end now, and every column of the new one |
| Admissions.RevokedExactlyWhen | backend/app/services/invite_service.py:265-294 | who revokes what, which refusal when, and that only the stamp is written |
| InviteService.Service.CreateAdminInvite | backend/app/services/invite_service.py:94-125 | goes through exactly for an admin, and then one new unused link of theirs is inserted |
| InviteService.Service.GetOrCreateSellerReferral | backend/app/services/invite_service.py:128-179 | goes through exactly for a seller or admin with a profile, and the link is an active referral of theirs |
| InviteService.Service.RegenerateSellerReferral | backend/app/services/invite_service.py:182-230 | goes through exactly for a seller or admin with a profile, and then the new link is their one active referral |
| InviteService.Service.RevokeInvite | backend/app/services/invite_service.py:265-294 | who may revoke which invite, used ones excepted |
| InviteService.Service.ConsumeInvite | backend/app/services/invite_service.py:345-415 | the checks in order, then one more use |
| InviteService.Service.SignUp | backend/app/services/auth_service.py:103-178 | account, referral row and use count change together, exactly with a link that admits and a free email, or not at all |
| Base64Url.DecodeUndoesEncode | backend/app/schemas/conversations.py:51-63 | decoding restores every byte string the encoder was given |
| Base64Url.EncodeShape | backend/app/services/messaging_service.py:41-42 | the encoding has symbols of the URL alphabet only, four for every three bytes rounded up, never one over a multiple of four |
| Base64Url.SymbolsAreTheAlphabet | backend/app/schemas/keys.py:69-71 | the symbols are the URL-safe alphabet in its order |
| Base64Url.EncodedGroup | backend/app/schemas/keys.py:69-71 | each three bytes become the four letters that spell the same 24-bit number, most significant first |
| Base64Url.EncodedTail | backend/app/schemas/keys.py:69-71 | one or two bytes left over become two or three letters, filled up with zero bits |
| Base64Url.EncodeUndoesDecodeExactlyOnCanonicalText | backend/app/schemas/keys.py:15-29 | encoding restores a text that was decoded exactly if it is canonical |
| Base64Url.SymbolsDecodeToTheirBytes | backend/app/schemas/conversations.py:51-57 | a text of symbols is rejected exactly if one symbol stands alone, and otherwise decodes to its whole bytes |
| Base64Url.UnusedBitsAreIgnored | backend/app/schemas/keys.py:15-29 | two texts that differ in unused bits decode to the same bytes |
| Base64Url.EncodeIsInjective | backend/app/schemas/keys.py:69-71 | different keys have different encodings |
| Base64Url.FieldsAcceptEveryPayload | backend/app/schemas/conversations.py:76-97 | every payload within a field's byte limits has an encoding within its length limit, which the field accepts and decodes back |
| Base64Url.FieldsAcceptExactly | backend/app/schemas/conversations.py:76-97 | of texts of symbols, a nonce has 16, a public key 43, a ciphertext 2 to 87382 but never one over a multiple of four |
| Pagination.WalkIsCompleteExactlyWhen | backend/app/services/admin_service.py:53-77 | following the cursor ends, and shows the whole sorted list exactly if no page ends between rows of one timestamp |
| Pagination.MatchingCounts | backend/app/services/admin_service.py:54-68 | the query returns each listed row below the cursor as often as the table has it, and no other |
| Pagination.PageShowsTheNewest | backend/app/services/admin_service.py:68-77 | a page shows all there is or is full, and no row left out is newer than one shown |
| Pagination.DistinctTimesAreWalkedInFull | backend/app/services/admin_service.py:173-193 | when no two listed rows of the table are of one instant, every limit shows each of them exactly as often as the table has it, newest first |
| Pagination.SinglePagesNeedDistinctTimes | backend/app/services/admin_service.py:219-236 | with pages of one row each listed row is shown exactly as often as the table has it only then |
| Pagination.WalkDescends | backend/app/services/admin_service.py:68-77 | ties or not, no row is shown after an older one |
| Pagination.NextPageIsSmaller | backend/app/services/admin_service.py:68-77 | each page removes at least its own rows from what is left |
| Slugs.SlugifyMakesASlug | backend/app/services/store_service.py:32-38 | whatever the name, the slug is non-empty, of a-z, 0-9 and single inner hyphens |
| Slugs.SlugifyFixesExactlySlugs | backend/app/services/store_service.py:32-38 | the texts slugify leaves alone are exactly the slugs, so it is idempotent |
| Slugs.SlugKeepsTheWords | backend/app/services/store_service.py:32-38 | the slug has the words of the lower-cased name in order, and a name without any becomes "store" |
| Slugs.LowerIsPointwise | backend/app/services/store_service.py:32-38 | lower-casing moves each capital to its small letter and leaves every other character |
| Slugs.UniqueSlug | backend/app/services/store_service.py:41-52 | the loop ends with the first free candidate, within one more probe than there are slugs |
| Slugs.FirstFreeIsUnique | backend/app/services/store_service.py:41-52 | there always is exactly one first free candidate |
| Slugs.CandidatesAreSlugs | backend/app/services/store_service.py:41-52 | a suffixed slug is a slug |
| Slugs.DecimalReadsBack | backend/app/services/store_service.py:41-52 | the suffix is the decimal number of the attempt, without leading zeros |

## Left out

- Lifecycle.RunKeepsLives: runs in which a right code comes at another time, since such a code does not keep the property; `Lifecycle.RunLivesExactlyWhenCodesAreInTime` says so exactly.
- Fulfilment.EveryRunIsGood: runs with the delivery flow's acceptance or code submission, which rewrite drivers and statuses; `FulfilmentLimits.RunIsFulfilledExactlyWhen` says exactly when such runs keep the property. The admin's manual change of a delivery is not part of this model.
- DeliveryCodes.RunKeepsCodes: the claim is about the service functions' own state; the request session rolls a failed attempt's counter back when the exception leaves it.
- OrderService.Service.AssignDriver: two assignments requested in the same microsecond are ordered by key, where the query leaves the order open.
- OrderService.Service.RunPurgeJob: the rows that the two queries return, in their order and without those skipped as locked, are parameters.
- Gateway.ConnectionRegistry.BroadcastAll: taking the two lists and sending is one step; the event loop may run other coroutines in between.
- Gateway.ConnectionRegistry.Subscribe: the participant check of conversations, typing notices and the heartbeat.
- Slugs.SlugifyMakesASlug: lower-casing outside ASCII.
- Pagination.WalkIsCompleteExactlyWhen: cursors are timestamps, not their text; an unreadable cursor counts as none. Rows of one timestamp come in table order.
- InviteService.Service.SignUp: the common-password check and the password hash; the token pair is in `AuthService`.
- AuthService.Service.Login: the silent rehash and the access token.
- Delivery addresses, cancellation reasons, the visibility windows of completed orders, tracking points and route estimates.
- Writes of `stock_quantity` by product editing, and changes of a user's role; everything else about products, seller profiles and active drivers may change within a run.
- Concurrency other than checkouts: all other calls are atomic steps.
- Cryptography, HTTP routing, schemas other than the length limits above, rate limits, metrics, push, uploads, scheduling, migrations and the mobile client.
