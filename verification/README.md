# Proofs about the gifting platform

A Dafny model of the hard parts of the corporate-gifting repository and proofs of what they promise:
the order and stock transactions run alone and at the same time, payments, the order status graph,
amounts of money, the generic SQL builder of the admin API, the WhatsApp gifting agent over whole
conversations, hybrid search, category resolution and the embedding sync.

`dafny verify dfyconfig.toml` checks everything.

## How it is laid out

| files | what they hold |
|---|---|
| `Std`, `Sums`, `Text`, `Money` | options and results; totals over sequences; decimal text; rounding |
| `InventoryService` | one inventory row, as a value and as the object updated in place; the row a lock picks |
| `OrderModel` | every order transaction as a function from database to database: the specification |
| `OrderService` | the same transactions as methods over mutable rows and tables, with rollback, proved to meet it |
| `OrderEffects` | what each order operation leaves on file, column by column, alone and over whole runs |
| `StockLaws`, `PaymentLaws`, `Totals` | what whole serial runs keep: stock, payments, amounts |
| `CartService`, `Feasibility` | filling a cart; exactly when its checkout succeeds |
| `Interleaving`, `Conflicts`, `DoubleCheckout` | transactions interleaved step by step under row locks: exactly which of them are serializable, and what the others can do |
| `ConcurrentStock`, `GiveBacks` | stock while they interleave: exactly which of them can never oversell |
| `Deadlock`, `Interlock` | waiting for locks: when a run cannot get stuck, and exactly when one can |
| `Shop`, `UnguardedShipment`, `PaymentRaces` | a small database for failing runs; shipments without a reservation; a payment confirmation overtaken by other operations |
| `StatusGraph` | the life of one order under staff, customer, payment provider and quote conversion |
| `QueryBuilder`, `QueryMeaning`, `QueryResults`, `Paging` | the list query as a tree, its three-valued meaning, its results, inserts and updates; one page after the other |
| `SlotSchema`, `SlotLaws`, `Payload` | requirements, what merging and refining do to each slot; tap payloads and list messages |
| `Agent`, `AgentNodes`, `AgentLaws`, `Session` | the seven nodes, what each message leads to, what a turn keeps, saving and whole conversations |
| `HybridSearch`, `CategoryTree`, `EmbeddingSync` | merging search results, category closure, incremental sync |

Code that computes is a function; code that updates is a class or a loop proved equal to a function, and
the laws are lemmas about those functions. An exception is an `Err` or `Failed` value and the database it
leaves behind. Lemmas are proved without automatic induction. What a language model, a search, the clock or
a database sequence answers is an arbitrary input.

## What the code promises and what it does

- Transactions lock stock but not carts and orders. They are serializable exactly when no two conflict
  (`Conflicts.SerializableIff`): two checkouts of one user, two cancellations of one order, a cancellation
  and a shipment of one order. Two shipments of one order do not conflict; each reads no status.
- `cancel_order` calls itself idempotent, "no double-release". That holds of cancellations one after
  the other; two at once can both release: `GiveBacks.ConcurrentCancelsReleaseTwice`.
- Two checkouts of one user at once can order one cart twice (`DoubleCheckout.OneCartOrderedTwice`), but never the
  same units: transactions keep live orders covered in every run exactly when no two of them can give back one
  order (`GiveBacks.NeverOversoldIff`).
- A cancellation or shipment may land on a different warehouse's row than the checkout did. Reserved
  stock then never falls below what live orders are owed, but may stay above it;
  `StockLaws.BalanceKeptIffUnclamped` says exactly when it does not, and
  `StockLaws.CancelCanLeaveStockReserved` that it does happen.
- `record_shipment` has no guard on the status. Rows stay sane all the same (`StockLaws.RowsStaySane`), but
  shipping an order that was cancelled or shipped before can take units another order is owed
  (`UnguardedShipment`). Live orders stay covered exactly while such shipments are affordable
  (`StockLaws.ReservationsCoverOrdersIff`), and the books balance exactly while they carry no units
  (`StockLaws.BooksBalanceIff`).
- `lock_for_variant` speaks of a deterministic lock order. That is the order of a variant's rows; variants
  are locked in cart order, so two checkouts can wait for each other (`Interlock.OppositeCartsGetStuck`)
  until the database aborts one, which is the `Abort` step. `Interlock.TwoGetStuckIff` says exactly when two
  transactions can, told from their lines and the table, and `Interlock.GetStuckIff` when any number without
  conflicts can. If carts and orders list their variants in one common order no run gets stuck
  (`Deadlock.CommonOrderNeverSticks`); that is not needed (`Interlock.SharedFirstLineNeverSticks`).
- `confirm_payment` calls itself idempotent, "flips the status only once". Replays that overlap leave the same
  database but each answers true (`PaymentRaces.OverlappingReplays`). One that overlaps a cancellation
  can leave a confirmed order whose units were released (`PaymentRaces.ConfirmationRevivesCancelledOrder`);
  `PaymentRaces.LateConfirmationIsSerialIff` says exactly when a late confirmation does what it should.
- Adding to a cart one request after the other keeps one line per variant and loses nothing. Two additions at
  once do so exactly when they are of different variants: of one variant the cart holds, the second overwrites
  the first; of one it does not hold, each makes a line (`CartService.OverlapIsSerialIff`,
  `CartService.OverlapStaysWellFilledIff`). Of such two lines the order can decide whether the checkout
  succeeds, exactly as `Feasibility.OrderMattersIff` says.
- Each page of a list is a query of its own, sorted by one column without a tie-break: a row can come
  twice and another never (`Paging.TiedRowCanRepeat`). Paging is exact precisely when no two different
  wanted rows tie (`Paging.PagingIsExactIff`).
- A list request reports the total of all matches only while the page is not past the end
  (`QueryResults.TotalIsRightIff`).
- The embedding sync picks products by their update time, which the admin's product form cannot set and its
  UPDATE does not move (`admin_api/config/resources.yml:40`, `admin_api/db/query_builder.py:199-209`; the
  column's `onupdate` in `app/db/base.py:20` acts on ORM writes only). An edited product that is embedded
  already then keeps its old point for good: `EmbeddingSync.RenameGoesUnnoticed`, `EmbeddingSync.StaleStays`.
  `EmbeddingSync.LastEditRepairedIff` and `EmbeddingSync.HistoryRepairedIff` say exactly what a sync repairs.
- A row of an earlier shortlist is told from a new one by kind and id alone, and a web idea's id is its place in
  the search that found it. Tapped later, the row confirms what it showed exactly when the first gift of
  that kind and id still has that title and price (`AgentLaws.TapConfirmsIff`); it can confirm whatever
  idea has taken the place (`AgentLaws.ReusedIndexConfirmsAnother`), or, none having that kind and id, the
  first gift presented.
- "Presenting" does not imply that there is something to show: a stale tap on "More options" breaks it,
  and nothing else does (`AgentLaws.ShowsKeptIff`).
- Resuming restores a conversation exactly but for an empty list of missing slots, which comes back
  full; no node reads it (`Session.ResumingIsInvisible`).
- The cart preview is what checkout charges exactly when no line falls back on the variant's present
  price (`Totals.PreviewEqualsSubtotalIff`).
- Customer cancellations and payment confirmations write no history row, nor does a quote conversion:
  `StatusGraph.HistoryCompleteIff`, `StatusGraph.ConfirmationLeavesNoTrace`.
- The embedding job's documentation says it selects status `active`; the code compares with `ACTIVE`, and
  so does the model.

## Model

| member | source | states |
|---|---|---|
| InventoryService.Inventory.Reserve | app/services/inventory_service.py:25-33 | succeeds exactly for a positive quantity that is available and then holds that much more; raising leaves the row alone |
| InventoryService.ReserveRefusals | app/services/inventory_service.py:25-33 | not positive is told first, more than available with what is; else reserved alone grows by the quantity |
| InventoryService.Inventory.Release | app/services/inventory_service.py:36-39 | on hand unchanged, reserved lowered and clamped at zero |
| InventoryService.Inventory.Fulfill | app/services/inventory_service.py:42-46 | on hand and reserved both lowered, both clamped at zero |
| InventoryService.PickIsBest | app/db/repositories/inventory_repo.py:16-39 | the row picked is one of the locked ones and missing only if none match; unpinned, none has more available and ties go to the earlier warehouse; pinned, it is the first match |
| InventoryService.PickFrame | app/db/repositories/inventory_repo.py:16-39 | the choice depends on the locked rows alone, so no other transaction can sway it |
| OrderService.Store.LockForVariant | app/db/repositories/inventory_repo.py:28-39 | the scan finds the row the selection rule names |
| OrderService.Store.RunLineInPlace | app/services/order_service.py:98-103 | one line against its locked row: the new table, or the error and the table as it was |
| OrderService.Store.ReserveCart | app/services/order_service.py:90-107 | all lines reserved in cart order with items planned and subtotal summed, or the first error |
| OrderService.Store.Rollback | app/services/order_service.py:67-74 | every row back to what it was when the transaction began |
| OrderService.Store.PlaceOrder | app/services/order_service.py:67-153 | database and outcome are those of the atomic checkout, whichever error is raised |
| OrderService.Store.Cancel | app/services/order_service.py:156-182 | database and outcome are those of the atomic cancellation |
| OrderService.Store.Ship | app/services/order_service.py:185-214 | database and outcome are those of the atomic shipment |
| OrderService.Store.RecordPaymentInPlace | app/services/order_service.py:217-243 | payments and answer are those of the recording: a known reference gives the payment there is |
| OrderService.Store.ConfirmPaymentInPlace | app/services/order_service.py:246-273 | payments, orders and answer are those of the confirmation |
| OrderModel.RunToStopsAtError | app/services/order_service.py:93-107 | once a line has failed no later line counts |
| OrderEffects.PlacedOrder | app/services/order_service.py:112-147 | a placed order is the user's, for that organization and to that address, pending and unpaid, with its own id and invoice; the cart is gone and nothing else changed |
| OrderEffects.PlacedItems | app/services/order_service.py:93-133 | its items are the cart's lines in order with their product and quantity, each at its snapshot, else at the variant's price, else at zero |
| OrderEffects.CheckoutRefusals | app/services/order_service.py:80-86 | an empty cart is told first, then an address that is not the user's; stock is only tried after both |
| OrderEffects.NoRowIsNoStock | app/services/order_service.py:98-103 | a line with no row to lock is refused as if nothing were available |
| OrderEffects.PlacedOrderIsTheUsers | app/services/order_service.py:112-169 | right after a checkout the user's cancellation succeeds and anyone else's does not find the order |
| OrderEffects.CancelOutcomes | app/services/order_service.py:163-169 | only the owner finds the order; cancelled already is fine, pending, paid and confirmed go, any other status is refused by name |
| OrderEffects.CancelChanges | app/services/order_service.py:171-179 | stock aside a cancellation changes the status of that one order |
| OrderEffects.CancelUndoesCheckout | app/services/order_service.py:67-182 | with one row per variant, cancelling what was just ordered restores every variant's reserved and on-hand totals and the demand |
| OrderEffects.ShipmentIsFiled | app/services/order_service.py:192-214 | a shipment of an order on file is filed with its courier and tracking number and marks that order shipped; another changes nothing |
| OrderEffects.ShipmentsOnFile | app/services/order_service.py:203-210 | over any serial run exactly the shipments of orders then on file are added, in that order |
| OrderEffects.PaymentIsRecorded | app/services/order_service.py:225-243 | for the user's own order a new reference is filed with that order, method and amount, unpaid; a known one answers with the payment there is; else nothing changes |
| OrderEffects.ConfirmationChanges | app/services/order_service.py:253-273 | a true confirmation marks that payment received and its order paid, confirmed if it was pending, and nothing else |
| OrderEffects.RecordedCanBeConfirmed | app/services/order_service.py:217-273 | what was recorded under a new reference can be confirmed whatever runs in between but a confirmation of it, and its order is paid then |
| OrderEffects.PaymentsOnFile | app/services/order_service.py:225-243 | over any serial run exactly the recorded payments are added, in that order, and only statuses of payments change |
| OrderEffects.OrdersOnFile | app/services/order_service.py:112-142 | over any serial run orders and invoices are added by exactly the checkouts that succeed, in that order; of an order only the two statuses ever change |
| StockLaws.RowsStaySane | app/services/inventory_service.py:20-46 | in every reachable state of every serial run each row has 0 <= reserved <= on hand, with repeated shipments, shipping after cancelling and over-release included |
| StockLaws.StepKeepsCoveredIff | app/services/order_service.py:37-273 | one operation keeps each variant's reserved total at or above what live orders are owed, whichever warehouse is hit, exactly when it is no shipment without a reservation or takes no more than is reserved beyond that |
| StockLaws.ReservationsCoverOrdersIff | app/services/order_service.py:156-214 | over any serial run live orders stay covered all along exactly when every shipment without a reservation is affordable where it comes |
| StockLaws.UnreservedShipmentIff | app/services/order_service.py:192-211 | with one row per variant, such a shipment keeps orders covered exactly when each of its variants is owed to no one or has that many units to spare |
| UnguardedShipment.ShippingACancelledOrderUncovers | app/services/order_service.py:192-211 | a sane, covered database that stays covered when an order is cancelled and is not once that order is shipped |
| UnguardedShipment.ShippingTwiceUncovers | app/services/order_service.py:192-211 | the same for shipping an order a second time |
| StockLaws.BooksBalanceIff | app/services/order_service.py:37-273 | with one row per variant, reserved is exactly what live orders are owed, on hand plus shipped never changes and no clamp fires at every step of a serial run, exactly when no order with units is shipped without its reservation |
| StockLaws.BalanceKeptIffUnclamped | app/services/order_service.py:171-201 | with any rows, cancelling or shipping keeps reserved equal to demand exactly when every line lands on a row holding its quantity |
| StockLaws.CancelCanLeaveStockReserved | app/services/order_service.py:171-176 | a database in which a cancellation leaves stock reserved that no order is owed |
| StockLaws.GivingBackNeverFails | app/services/order_service.py:171-201 | releasing and fulfilling never raise |
| StockLaws.LossOfLines | app/services/inventory_service.py:36-46 | over many lines no variant gives back less than asked exactly when no line is clamped |
| Feasibility.ReserveIffFits | app/services/order_service.py:93-107 | with one candidate row per variant all lines reserve exactly when they are positive and each variant's sum fits what was available |
| Feasibility.OrderOfLinesIsIrrelevant | app/services/order_service.py:93-107 | then the order of the lines does not matter |
| Feasibility.OrderMattersIff | app/db/repositories/inventory_repo.py:37-39 | two lines of one variant over any rows reserve with the larger first whenever with the smaller first, and with the larger first only exactly when neither the rest of the fullest row nor another row covers the larger |
| Feasibility.OrderMattersWithTwoRows | app/db/repositories/inventory_repo.py:37-39 | it happens: two additions made at once to an empty cart, two rows, and the order in which they write decides the checkout |
| Feasibility.LineReservesIffSomeRowCovers | app/db/repositories/inventory_repo.py:28-39 | a line fails exactly when it asks for nothing or no single row can cover it |
| Feasibility.CartReservesIffEachLineCovered | app/services/order_service.py:93-107 | with any rows and one line per variant a cart reserves exactly when each line is covered by a single row of the stock at the start |
| Feasibility.CartReservesIffEachLineFits | app/services/order_service.py:93-107 | the same with a warehouse pinned or not: each line is positive and fits the row found for it in the stock at the start |
| Feasibility.CheckoutSucceedsIffSumsFit | app/services/order_service.py:80-107 | with one candidate row per variant and any cart, a checkout places an order exactly when the cart is not empty, the address is the user's, the order id is new and every variant's sum fits |
| Feasibility.CheckoutSucceedsIffLinesFit | app/services/order_service.py:80-107 | with any stock and one line per variant, exactly when the same holds and every line fits the row found for it |
| Feasibility.FilledCartCheckoutIff | app/services/order_service.py:80-107 | the same for every cart that any requests have filled one after the other |
| CartService.Cart.AddItem | app/api/cart.py:53-74 | refuses what is not positive, not on file or below the minimum, and leaves the cart; else adds to the first line of the variant or appends one with the price of now |
| CartService.Cart.UpdateItem | app/api/cart.py:84-88 | sets the quantity of the line with that id, or refuses and leaves the cart |
| CartService.Cart.RemoveItem | app/api/cart.py:97-101 | takes out that one line, or refuses and leaves the cart |
| CartService.AddRefusals | app/api/cart.py:53-62 | what is not positive, not on file or below a nonzero minimum is refused, in that order |
| CartService.AddChanges | app/api/cart.py:64-74 | an accepted addition adds to the first line of the variant, or appends a line at the variant's price now, else at zero |
| CartService.LineRequests | app/api/cart.py:84-110 | updating sets that line's quantity, removing takes that line out, clearing takes all |
| CartService.CartsAreWellFilled | app/api/cart.py:49-112 | after any requests one after the other every line is of a positive quantity and no variant has two |
| CartService.OverlapIsSerialIff | app/api/cart.py:64-74 | for any cart, two accepted additions that both look before either writes leave what they leave one after the other exactly when their variants differ; of one variant in the cart the first is lost, of one not in it there are two lines |
| CartService.OverlapStaysWellFilledIff | app/api/cart.py:64-74 | they keep one positive line per variant exactly unless both add a variant the cart did not hold |
| Feasibility.FailureChangesNothing | app/services/order_service.py:67-74 | a transaction that raises, or finds its order cancelled already, changes nothing |
| Interleaving.RunsAreSerializable | app/services/order_service.py:1-9 | however transactions without conflicts interleave and are aborted, database and outcomes are those of running the ended ones whole in the order they ended, each once |
| Conflicts.SerializableIff | app/services/order_service.py:1-9 | a set of transactions is serializable in every run from every database exactly when no two are checkouts of one user, one user's cancellations of one order, or a cancellation and a shipment of one order |
| Conflicts.ConflictsAreNotSerializable | app/services/order_service.py:80-214 | each conflicting pair has a database and an interleaving that no serial account explains |
| Interleaving.StepKeepsInv | app/db/repositories/inventory_repo.py:16-35 | each step keeps locks exclusive and every transaction where it would be had it run alone |
| ConcurrentStock.RowsStaySaneConcurrently | app/services/inventory_service.py:20-46 | whatever transactions interleave, conflicting ones included, each committed row always has 0 <= reserved <= on hand |
| ConcurrentStock.NothingIsOversold | app/services/order_service.py:6-8 | while any transactions interleave, checkouts of one cart included, at every moment each variant's units owed to live orders are reserved and the reserved ones are on hand, as long as no two of them can give back one order and none ships an order that has lost its reservation |
| ConcurrentStock.StockStaysInOrder | app/services/order_service.py:1-9 | what every step keeps for that: locks exclusive, rows sane, orders covered, and each transaction where it would be had it run alone on the cart it read |
| GiveBacks.NeverOversoldIff | app/services/order_service.py:156-214 | a set of transactions keeps live orders covered in every run, from every database in which they are and what is to be shipped is reserved, exactly when no two of them cancel (as one user) or ship the same order |
| Interlock.TwoGetStuckIff | app/services/order_service.py:93-98 | some run of two transactions, conflicting or not, leaves both waiting for good exactly when each can get to a line that needs a row the other has locked by then, on disjoint locks |
| Interlock.GetStuckIff | app/db/repositories/inventory_repo.py:16-35 | some run of any number of transactions without conflicts gets stuck exactly when, after some of them have run one after the other, the rest can reach lines at which each waits for another |
| Interlock.OppositeCartsGetStuck | app/services/order_service.py:93-98 | any two checkouts of different users can get stuck, with two variants in their carts in opposite orders |
| Interlock.SharedFirstLineNeverSticks | app/services/order_service.py:93-98 | two transactions whose first lines lock the same rows never get stuck, whatever order the other lines are in |
| Deadlock.CommonOrderNeverSticks | app/db/repositories/inventory_repo.py:16-35 | if carts and orders list their variants in one common order, no run of any transactions gets stuck |
| Interleaving.OthersStayOnTrack | app/db/repositories/inventory_repo.py:28-35 | a commit leaves every transaction holding disjoint locks on the course it had |
| Interleaving.SoloIsAtomic | app/services/order_service.py:74-153 | a transaction with no one in its way ends, with the effect it has as a whole |
| GiveBacks.ConcurrentCancelsReleaseTwice | app/services/order_service.py:156-182 | for any order, two interleaved cancellations can release another order's units, although one after the other they do not |
| DoubleCheckout.SecondCheckoutFindsNoCart | app/services/order_service.py:80-82 | one after the other, a user's second checkout always raises on the empty cart and changes nothing |
| DoubleCheckout.OneCartOrderedTwice | app/services/order_service.py:80-147 | interleaved, two checkouts of one user both order the same cart; in either serial order one does |
| PaymentLaws.PaymentsStayConsistent | app/services/order_service.py:217-273 | over any serial run: one payment per reference, an order is paid exactly when one of its payments is, a confirmed order is paid |
| PaymentLaws.ConfirmTrueIff | app/services/order_service.py:246-273 | confirming answers true exactly for a recorded, unpaid reference, which is paid then; else nothing changes |
| PaymentLaws.ConfirmedAtMostOnce | app/services/order_service.py:246-250 | over any serial run with replays a reference is confirmed once if it went from unpaid to paid, else never |
| PaymentRaces.ConfirmIsDecideThenWrite | app/services/order_service.py:246-273 | with nothing in between, the reads followed by the writes are the confirmation |
| PaymentRaces.LateConfirmationIsSerialIff | app/services/order_service.py:251-272 | whatever runs between reading the payment, reading its order and writing, the late write does what a confirmation at that point would do exactly when it does not confirm an order that has meanwhile left pending for another status than confirmed |
| PaymentRaces.OverlappingReplays | app/services/order_service.py:246-273 | replays that read before either writes both answer true exactly for an unpaid reference, and leave what one confirmation leaves |
| PaymentRaces.ConfirmationRevivesCancelledOrder | app/services/order_service.py:167-181 | a cancellation between the reads and the writes: the order ends confirmed with its units released and orders uncovered, where either serial order leaves it cancelled |
| Totals.Preview | app/api/cart.py:25-40 | the cart's running subtotal is the sum of snapshot price times quantity |
| Totals.PreviewEqualsSubtotalIff | app/api/cart.py:28-31 | the preview never exceeds what checkout charges and equals it exactly when no line falls back on a nonzero variant price |
| Totals.PlacedAmountsAgree | app/services/order_service.py:109-138 | a placed order holds the cart's lines; order, invoice and reported total agree; tax is within half a paisa; two-decimal prices give an exact total |
| Totals.Quote.Convert | admin_api/handlers/quotes_handler.py:33-59 | converts unless converted, rejected or expired, and then is converted; half-up tax within half a paisa; total exactly lines plus tax |
| Totals.QuoteSubtotalHasTwoDecimals | admin_api/handlers/quotes_handler.py:43-52 | with two-decimal prices a quote's subtotal and total have two decimals |
| Money.HalfEvenIsNearest | app/services/order_service.py:109-110 | default rounding picks a nearest value, the even one of two |
| Money.HalfUpIsNearest | admin_api/handlers/quotes_handler.py:45 | half-up rounding picks a nearest value, the one further from zero of two |
| Money.TotalIsSubtotalPlusTax | app/services/order_service.py:109-110 | tax within half a paisa of rate times subtotal; with a two-decimal subtotal the second rounding changes nothing |
| StatusGraph.TransitionsAre | admin_api/handlers/orders_handler.py:27-36 | staff move an order one step along the main line, cancel it until it is shipped, take it back once shipped or delivered, and nothing else |
| StatusGraph.OrderRow.ChangeStatus | admin_api/handlers/orders_handler.py:44-66 | accepted exactly along the transition table; then status and history move together |
| StatusGraph.OrderRow.Cancel | storefront/services/order_service.py:153-175 | accepted exactly when cancelled already or still holding a reservation; no history row |
| StatusGraph.OrderRow.ConfirmPaid | storefront/services/order_service.py:250-256 | a pending order becomes confirmed, any other keeps its status |
| StatusGraph.EveryLifeIsOrderly | admin_api/handlers/orders_handler.py:27-36 | whatever is tried, an order moves only along the graph with rising rank, at most six times; the history is a subsequence of its statuses with rising rank |
| StatusGraph.NoStatusIsSkipped | admin_api/handlers/orders_handler.py:27-36 | every order follows the main line from its start without gaps and leaves it at most once, cancelled or returned |
| StatusGraph.SixChangesHappen | admin_api/handlers/orders_handler.py:27-36 | a life with six changes |
| StatusGraph.TerminalAbsorbs | admin_api/handlers/orders_handler.py:34-35 | cancelled and returned orders never move again |
| StatusGraph.HistoryCompleteIff | storefront/services/order_service.py:123-126 | the history is short by one row for each customer cancellation met while the order held a reservation, each payment confirmation met while pending and a quote conversion; it is complete exactly when there was none |
| StatusGraph.ConfirmationLeavesNoTrace | storefront/services/order_service.py:250-256 | a life whose history lacks its confirmation |
| QueryBuilder.BuildListQuery | admin_api/db/query_builder.py:81-162 | builds exactly for allow-listed columns; clauses and parameters in the order the request gives them; sorted as asked, else by the resource's default, else by key descending; the error names a column that is not allowed |
| QueryBuilder.CastsAre | admin_api/db/query_types.py:18-28 | a value is cast to its column's declared type, a timestamp with its zone, text and undeclared columns not at all |
| QueryMeaning.WhereMeansRequest | admin_api/db/query_builder.py:86-140 | one parameter per placeholder, and under three-valued logic the clause is true of exactly the rows meeting search, filters and ranges |
| QueryMeaning.AddedMeans | admin_api/db/query_builder.py:89-140 | appending a clause with its parameters adds that condition, bound to its own values, and disturbs none before it |
| QueryResults.ListQueryMeansRequest | admin_api/db/query_builder.py:140-162 | over any table the query's possible results are exactly the requested pages of the wanted rows in the chosen order, null cells last |
| QueryResults.ListIsSorted | admin_api/db/query_builder.py:142-154 | any answer to a request with a sort is in that direction, rows without the column last |
| Paging.PagingIsExactIff | admin_api/db/query_builder.py:150-162 | whatever the database answers to each page's own query, the pages together are every wanted row once, for every page size, exactly when no two different wanted rows tie under the sort |
| Paging.PagesAreExactIff | admin_api/db/query_builder.py:150-162 | for one page size, exactly when in no ordering two different rows that tie lie on different pages |
| Paging.PagesComeInOrder | admin_api/db/query_builder.py:150-162 | without ties any answers to the pages concatenate to the wanted rows in the order asked for |
| Paging.TiedRowCanRepeat | admin_api/db/query_builder.py:150-162 | two rows that tie: both pages can answer with the first one |
| QueryResults.TotalIsRightIff | admin_api/services/resource_service.py:112-116 | the total reported with any answer to the built query is the number of wanted rows exactly when there are none or the page is not past the last of them |
| QueryResults.ValidateWrite | admin_api/services/resource_service.py:170-179 | accepts exactly bodies of writable fields that, on create, carry every required one; names all fields that are not writable, else all required ones that are missing |
| QueryResults.UpdateChangesExactly | admin_api/db/query_builder.py:199-209 | sets each given column to its own value on the rows with that key, and changes nothing else |
| QueryResults.InsertAddsExactly | admin_api/db/query_builder.py:189-196 | adds one row with exactly the given values over the defaults |
| Text.IntRoundTrip | app/agent/nodes/finalize_selection.py:91-95 | a printed id reads back as that id |
| Text.AmountRoundTrip | app/agent/nodes/handle_refinement.py:113-122 | a whole amount in digits is read as that amount, whatever else but points is typed around it |
| Text.HundredthsAreRead | app/agent/nodes/handle_refinement.py:113-122 | two digits behind a point are tenths and hundredths |
| SlotSchema.ComputeMissingSlots | app/agent/slot_schema.py:69-81 | lists the unfilled slots in priority order |
| SlotSchema.MissingIffUnfilled | app/agent/slot_schema.py:69-81 | a slot is listed exactly when it is not filled |
| SlotLaws.FilledIff | app/agent/slot_schema.py:69-81 | a slot is filled by its own field, the budget by either amount, the themes by any one |
| SlotLaws.SufficientIff | app/agent/slot_schema.py:84-85 | there is enough to search exactly when occasion, count and budget are none of them missing |
| SlotSchema.MergeSlots | app/agent/slot_schema.py:88-121 | the merge with its set of seen themes is the merge by definition |
| SlotSchema.MaybeSet | app/agent/slot_schema.py:97-101 | an extracted value goes in where there was none, or anywhere when overwriting; nothing extracted changes nothing |
| SlotLaws.MergeFills | app/agent/slot_schema.py:88-121 | overwriting or not, each extracted value goes into its own slot and into no other |
| SlotLaws.NothingElseIsDerived | app/agent/slot_schema.py:124-134 | a budget is derived only for a known count other than zero and only from the other budget |
| SlotLaws.ThemesAdded | app/agent/slot_schema.py:103-112 | each extracted theme is listed once behind those there were, letter case aside, and nothing else is |
| SlotSchema.MergeKeeps | app/agent/slot_schema.py:88-134 | without overwrite no filled field changes and the missing slots only shrink |
| SlotSchema.MergeIsIdempotent | app/agent/slot_schema.py:88-121 | merging the same extraction twice is merging it once |
| SlotSchema.DerivedBudgetAgrees | app/agent/slot_schema.py:124-134 | per-person budget times count differs from the total by at most count/200 |
| SlotSchema.AsksForMissingRequired | app/agent/slot_schema.py:137-149 | while there is not enough to search, the slot asked first is a required one that is missing |
| SlotLaws.AskedTogether | app/agent/slot_schema.py:137-149 | two slots share a question exactly when count and budget, or city and timeline, head what is missing |
| SlotSchema.ThreeAnswersSuffice | app/agent/nodes/collect_requirements.py:35-55 | answering what is asked reaches a search within three questions |
| SlotSchema.RefinementKeepsSufficiency | app/agent/nodes/handle_refinement.py:72-110 | a refinement empties no filled slot and never loses what a search needs |
| SlotSchema.NudgeMovesBudget | app/agent/nodes/handle_refinement.py:97-110 | a named amount becomes the guiding budget (the total, beside a per-recipient budget of zero); without one it moves to within half a rupee of the factor times itself |
| SlotLaws.RefiningMovesBudget | app/agent/nodes/handle_refinement.py:77-80 | without an amount cheaper moves the guiding budget to within half a unit of four fifths and pricier of five quarters, so a whole budget is never raised by the one or lowered by the other; everything else stays |
| SlotLaws.NamedAmountIsTaken | app/agent/nodes/handle_refinement.py:97-105 | with an amount both take it, as the total beside an empty budget per head, else per head without a total |
| SlotLaws.RecipientsAreSet | app/agent/nodes/handle_refinement.py:81-84 | more or fewer recipients set the count to the whole part of the number named, and nothing else |
| SlotLaws.ThemeIsAdded | app/agent/nodes/handle_refinement.py:85-88 | a theme is added at the end unless empty or listed, letter case aside |
| SlotLaws.BrandingIsSet | app/agent/nodes/handle_refinement.py:89-92 | branding is wanted unless the text has "no" or "without" in it |
| Payload.DecodeEncode | app/whatsapp/inbound.py:100-116 | decoding undoes encoding if the first two parts hold no colon, whatever the third holds |
| Payload.BuildSections | app/whatsapp/outbound_builders.py:59-75 | the counted loops send what the definition by sections says |
| Payload.SentAreFirstTen | app/whatsapp/outbound_builders.py:61-75 | the first ten rows are sent, in order, ids untouched; no section is empty, titles fit |
| Payload.SentRowFits | app/whatsapp/outbound_builders.py:64-72 | a row keeps its id, its title fits 24 characters and its description, sent unless empty, 72 |
| Payload.AtMostTenRows | app/whatsapp/outbound_builders.py:59-75 | ten rows are sent, or all of them if there are fewer |
| Payload.Truncate | app/whatsapp/outbound_builders.py:40-46 | never longer than the limit, only stripped when that suffices, else a prefix of the stripped text and an ellipsis |
| Payload.CutAtLimit | app/whatsapp/outbound_builders.py:40-46 | a cut text runs to one before the limit but for blanks there |
| Payload.StripIs | app/whatsapp/outbound_builders.py:40-46 | stripping takes off the blanks at both ends and nothing else |
| Agent.KeepReal | app/agent/nodes/curate_recommendations.py:50-67 | the validating loop keeps only gifts backed by a candidate or idea, and drops no item that names one on offer |
| Agent.BuildListSections | app/agent/nodes/present_options.py:71-99 | every gift's row stands under the heading of its kind, and there are as many rows as gifts |
| Agent.NodeStep | app/agent/graph.py:37-63 | whatever is answered, a node routes along a declared edge |
| Agent.TurnsTerminate | app/services/conversation_orchestrator.py:86-88 | every turn ends after at most five nodes, below the recursion limit |
| AgentNodes.FirstMessageIsGreeted | app/agent/nodes/route_intent.py:30-40 | a first message is greeted and asked for the occasion, whatever it says |
| AgentNodes.LatestHumanIs | app/agent/nodes/route_intent.py:81-85 | the text read is the latest thing the person wrote |
| AgentNodes.IntentsLead | app/agent/nodes/route_intent.py:57-75 | each intent leads to its own node: a refinement searches with the refined slots, a selection finalises, a new request starts from no slots, a question or smalltalk is answered and changes nothing |
| AgentNodes.RefinedSearch | app/agent/nodes/handle_refinement.py:32-53 | a refinement searches with the slots it leaves, without any text with those there were |
| AgentNodes.RefinementIsAcknowledged | app/agent/nodes/handle_refinement.py:32-69 | a refinement is acknowledged by its kind, one without any text as a wish for more options |
| AgentNodes.QuestionIsSent | app/agent/nodes/collect_requirements.py:23-55 | while something required is missing the question is sent and a missing required slot noted as asked; with enough nothing is sent |
| AgentNodes.ButtonsLead | app/agent/nodes/route_intent.py:42-52 | the two buttons sent below a shortlist show it again and search again |
| AgentNodes.TapsFinalise | app/agent/nodes/route_intent.py:42-52 | tapping a gift, an idea or a confirmation finalises, whatever was written with it |
| AgentNodes.UnknownTapIsFreeText | app/agent/nodes/route_intent.py:42-55 | a tap of any other kind is read as the text that came with it |
| AgentNodes.SearchedIsOnOffer | app/agent/nodes/search_catalog.py:36-42 | what a search answers is on offer afterwards, in place of what was |
| AgentNodes.KeptInOrder | app/agent/nodes/curate_recommendations.py:50-67 | kept are exactly the items that name something on offer, in order, with the rank, reason and tags given |
| AgentNodes.BackedShows | app/agent/nodes/curate_recommendations.py:106-127 | a kept gift shows its candidate's first image or its idea's address |
| AgentNodes.CurationEnds | app/agent/nodes/curate_recommendations.py:40-88 | nothing on offer and nothing kept are told apart and lead back to the requirements; else a shortlist is presented |
| AgentNodes.PresentSends | app/agent/nodes/present_options.py:25-52 | introduction, a list with every gift's row, the two buttons, then the images, in that order |
| AgentNodes.RowShows | app/agent/nodes/present_options.py:71-105 | a row shows its gift's title, and the reason for it behind the price, if it has one |
| AgentNodes.ImagesAreFirstTwo | app/agent/nodes/present_options.py:108-117 | the images are those of the first two gifts that have one |
| AgentNodes.PriceTextIsNearest | app/agent/nodes/present_options.py:102-105 | a price is told to the nearest whole amount |
| AgentNodes.ConfirmationNames | app/agent/nodes/finalize_selection.py:98-104 | a confirmation names the gift and its price |
| AgentLaws.CurateGrounds | app/agent/nodes/curate_recommendations.py:40-88 | whatever the model ranks, the shortlist is backed by this state's candidates and ideas |
| AgentLaws.BackedIsReal | app/agent/nodes/curate_recommendations.py:106-127 | a backed gift has the title and price of a candidate or idea on offer |
| AgentLaws.SortsStably | app/agent/nodes/curate_recommendations.py:76 | the shortlist is in rank order and gifts of one rank keep the order they were given in |
| AgentLaws.FreeTextPicksTopRanked | app/agent/nodes/finalize_selection.py:84-88 | chosen without naming one, the gift is one that no kept gift outranks |
| AgentLaws.NodeHandsOver | app/agent/nodes/search_catalog.py:36-42 | each node leaves what the next one needs; searching breaks grounding only until curation restores it |
| AgentLaws.RunEndsWell | app/agent/graph.py:24-65 | every run ends in slot filling, presenting or done, with no refinement pending and a grounded shortlist; done means a real gift was confirmed |
| AgentLaws.ShowsKeptIff | app/agent/nodes/route_intent.py:42-54 | "presenting means a non-empty shortlist" survives a turn exactly when it is not a stale tap on more options |
| AgentLaws.TapResolves | app/agent/nodes/finalize_selection.py:63-95 | a tapped row finishes on a gift of its kind, id, title and price, and the reply names it |
| AgentLaws.TapConfirmsIff | app/agent/nodes/finalize_selection.py:63-88 | any row ever shown, tapped: the turn confirms a gift of that kind and id exactly when one is shortlisted, and what the row showed exactly when the first of these has its title and price; if none is, the first of the list presented, or nothing |
| AgentLaws.ReusedIndexConfirmsAnother | app/agent/nodes/curate_recommendations.py:106-115 | after another search the row of a web idea confirms the idea that has taken its index, whatever the row showed |
| AgentLaws.EveryGiftHasARow | app/agent/nodes/present_options.py:71-99 | with at most ten gifts each has its row in what is sent, catalogue first, ids unchanged |
| AgentLaws.ShortlistIsShort | app/agent/schemas.py:46-47 | the shortlist has at most the five entries a curation may hold |
| AgentLaws.AsksOrSearches | app/agent/nodes/collect_requirements.py:23-55 | a message while collecting either goes on to search or asks for a required slot that is still empty |
| Session.LoadSerialize | app/services/session_service.py:21-67 | loading what was saved gives the state back but for transient fields; a finished one gives a fresh state with the last six messages |
| Session.LastSixAre | app/services/session_service.py:25-29 | a finished conversation leaves its last six messages, or all if fewer |
| Session.FreshStart | app/services/session_service.py:21-31 | nothing stored starts from nothing, with every slot missing |
| Session.TurnBegins | app/services/conversation_orchestrator.py:131-143 | a turn starts with what was stored, the tap only of an interactive message, and what was written behind all before |
| Session.ResumingIsInvisible | app/services/session_service.py:34-67 | after any turn that did not finish, the next message gets the same replies and state, missing slots aside, from memory or from storage |
| Session.ShownRowsAreTappable | app/services/conversation_orchestrator.py:131-144 | a shown row tapped next turn, after saving and loading, finishes on that gift |
| Session.FinishedRowsAreGone | app/services/session_service.py:25-29 | after finishing, an old row tapped confirms nothing |
| Session.TurnEndsWell | app/services/conversation_orchestrator.py:61-93 | a turn from a loaded state ends in order, and done means a real gift was confirmed |
| Session.ConversationsStayInOrder | app/services/conversation_orchestrator.py:61-93 | over any conversation with failing turns every stored state is one in which a turn ended in order |
| HybridSearch.MergeAndDedupe | app/search/hybrid_search.py:34-50 | the dict filled and updated hit by hit holds each key once in order of first appearance, each with the entry the next two rows describe |
| HybridSearch.MergedOrder | app/search/hybrid_search.py:35-50 | each key of either search once, in order of first appearance |
| HybridSearch.MergedEntry | app/search/hybrid_search.py:36-49 | an entry is the last catalogue hit, else the first semantic one, marked as found by both with the last score once a semantic hit repeats it |
| HybridSearch.FallbackIffFewStrongKeys | app/search/hybrid_search.py:53-72 | the web is asked exactly when too few distinct items are in the catalogue results or similar enough |
| CategoryTree.ResolveCategoryIds | app/db/repositories/catalog_repo.py:168-190 | ends on any parent relation, cycles included, with exactly the ids reachable from the matched roots, each once |
| CategoryTree.CaseIsIgnored | app/db/repositories/catalog_repo.py:168-174 | a category whose slug was asked for is found, and the case of what was asked for makes no difference |
| EmbeddingSync.Job.EmbedBatch | app/jobs/embed_products.py:61-78 | points and rows are those of that many upserts; it stops where it fails |
| EmbeddingSync.Job.Run | app/jobs/embed_products.py:40-85 | a run that gets through embeds all that was selected; one that fails keeps its points and rolls its rows back |
| EmbeddingSync.PointCarries | app/jobs/embed_products.py:67-75 | a point carries each column of its product under its own name |
| EmbeddingSync.TextIs | app/jobs/embed_products.py:113-122 | the text is name, category path, "by" the brand and description, with no trace of what is empty |
| EmbeddingSync.PathIs | app/jobs/embed_products.py:125-131 | the path is the parent's name and the category's own, or the one there is |
| EmbeddingSync.PickedIff | app/jobs/embed_products.py:88-99 | picked are exactly the active products without a row or updated after theirs was made |
| EmbeddingSync.FailedSyncKeepsPoints | app/jobs/embed_products.py:61-82 | a failing run keeps the points of the products it got to, leaves all others and every row |
| EmbeddingSync.CompleteSyncRows | app/jobs/embed_products.py:102-110 | a complete run gives each product it picked its point id and a time of the run, and touches no other row |
| EmbeddingSync.NothingLeftToEmbed | app/jobs/embed_products.py:88-110 | after a complete run no product is selected |
| EmbeddingSync.AnnouncedIffMoved | app/jobs/embed_products.py:92-95 | an edit of an embedded active product is picked up next exactly when it moves the update time past the embedding or leaves the data its point carries |
| EmbeddingSync.EditKeepsSoundIff | app/jobs/embed_products.py:92-95 | an edit keeps "what a sync would not pick is up to date" exactly when it is announced in that sense |
| EmbeddingSync.HistoriesAreSound | app/jobs/embed_products.py:61-78 | after any history of failing syncs, announced edits and new products, what a sync would not pick is up to date |
| EmbeddingSync.CompleteSyncRepairs | app/jobs/embed_products.py:88-110 | then one complete run leaves each active product exactly one point with its present data, and the next run selects nothing |
| EmbeddingSync.SyncRepairsIff | app/jobs/embed_products.py:61-99 | from any state a complete run repairs every active product exactly when each one it does not pick is up to date already |
| EmbeddingSync.LastEditRepairedIff | admin_api/db/query_builder.py:199-209 | after such a history and one more edit, a complete run repairs everything exactly when that edit is announced |
| EmbeddingSync.HistoryRepairedIff | app/jobs/embed_products.py:61-99 | after any history whatever, exactly when each active product not picked has now the point last written for it |
| EmbeddingSync.StaleStays | app/jobs/embed_products.py:88-99 | an active product not picked and not up to date stays so through any syncs and anything done to other products |
| EmbeddingSync.RenameGoesUnnoticed | admin_api/config/resources.yml:40 | an embedded product renamed with its update time kept: nothing is selected, a complete run writes nothing and the point stays stale |

## Left out

- Interleaving.RunsAreSerializable: asks that no two transactions conflict; `Conflicts.SerializableIff` shows that this is exactly what is needed.
- ConcurrentStock.NothingIsOversold: asks that no two transactions can give back one order, which `GiveBacks.NeverOversoldIff` shows to be needed, and that what is shipped is reserved; `StockLaws.StepKeepsCoveredIff` is the exact condition for a shipment without a reservation.
- StockLaws.BooksBalanceIff: asks that no variant has two rows; `StockLaws.BalanceKeptIffUnclamped` is the exact condition without it.
- Interlock.GetStuckIff: asks for no conflicts beyond two transactions; waits for rows of carts, orders and payments are not modelled.
- StatusGraph.EveryLifeIsOrderly: leaves `record_shipment` and generic admin edits of an order out, as both may set any status.
- PaymentLaws.PaymentsStayConsistent: is about runs one operation after the other; `PaymentRaces` takes one confirmation apart, among operations that run whole. Confirmations are not actions of the step machine, and the wait for a payment row another confirmation has flushed is not modelled.
- Feasibility.OrderMattersIff: is about no pinned warehouse; with one pinned all lines of a variant fall on its first row there.
- CartService.OverlapIsSerialIff: is about additions; a line removed while another request is about to write it makes that write fail, which is not modelled.
- EmbeddingSync.CompleteSyncRepairs: asks for announced edits (without them, `EmbeddingSync.HistoryRepairedIff`), distinct point ids, a clock not behind any update and edits outside of runs; a renamed category does not touch the product's update time, so the category a point carries is the product row's own here. Points of products no longer active stay, as in the code.
- Feasibility.CartReservesIffEachLineFits: asks for one line per variant, which `CartService.CartsAreWellFilled` shows of every cart filled one request at a time.
- Paging.PagingIsExactIff: compares what the database holds at one moment; rows written between two pages are not modelled.
- QueryResults.ListQueryMeansRequest: leaves the joined relation columns out, and takes ILIKE, casts and value order from the database.
- Order and invoice numbers, audit rows, notifications and logs. Order ids come from the database sequence as inputs.
- Several active carts of one user: the newest is the cart here. The inventory table is a sequence; rows equal in warehouse keep table order.
- The 28-digit context of decimals: arithmetic is exact, then rounded. Vectors (a point carries the text its vector is made from), batch sizes below one, and the dry-run flag of the sync.
- Unicode: integers are read as a sign and ASCII digits without surrounding spaces or underscores, stripping removes ASCII blanks, lower-casing is a parameter. Reply wording is shortened; the amounts, titles and ids in it are kept.
- The other fields of a candidate (description, category, customisable), copied through as they are. `ResolveCategoryIds` lists ids in the order found; the code's set has none.
- Detail, lookup and delete queries, group authorization, audit redaction, dashboard, offers, campaigns, gift-box contents: easy members.
- The storefront's checkout of gift boxes (it reserves no stock) beyond the status and history it writes; its cancel, shipment and payments are those of `app/`.
- Language models, prompts, vector and web search, WhatsApp and HTTP transport, authentication, settings and deployment.
