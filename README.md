# Order matching and settlement of a Bitcoin exchange, in Dafny

This project models the core of a small Go Bitcoin exchange. Users hold two integer
balances, USD cents and satoshis. They rest standing orders (limit orders) to buy or
sell satoshis, and market orders are matched against those orders.

- `market_order.go` is the matcher:
  - `BuyViaStandingOrder` / `SellViaStandingOrder` settle one fragment against one resting order;
  - `BuySatoshis` / `SellSatoshis` walk the opposite side of the book in price order, ten rows per page;
  - `getStandingSellOrders` / `getStandingBuyOrders` are the page queries.
- `standing_order.go` is the life of a standing order:
  - the pledged (blocked) totals;
  - admission as LIVE or CANCELLED;
  - execution against the book;
  - cancellation by its owner.

The model has two layers.

- **Specification functions over values.** The user table and the order table are a
  `Ledger` (`Matching.Ledger`): a map from user id to balances, and a sequence of
  orders in which every order's id is its position. Every operation is a function of
  the ledger, and its properties are proved as lemmas:
  - `OrderBook` holds the page query;
  - `Settlement` holds one fragment over the three records it touches;
  - `Matching` holds the loops;
  - `MatchingFacts` and `MatchingBounds` hold conservation, crediting and bounds;
  - `MatchingFrame` holds what a match leaves alone, `MatchingProgress` what it does trade, and `PledgeCoverage` when a resting order's owner stays solvent;
  - `Lifecycle` holds the standing-order operations.
- **The imperative code.** The class `Exchange.Exchange` holds the two tables as
  mutable fields. Its methods are step-by-step versions of the Go functions, except
  that a fragment reads the resting order's owner from the current user table rather
  than from the copy loaded with the page (the finding below): the clamp
  `if`s, the paged `for offset` loop whose `break outerLoop` becomes an exhausted
  flag, the `for range` accumulations, and field overwrites. Each method is proved to
  leave exactly the state, and return exactly the result, of the matching
  specification function.

Money: Go's `int64(x)` of a float rounds toward zero. It is `Money.Trunc`, whose
bounds `Money.TruncBounds` states, with floats taken as exact reals. Limit prices are
reals in USD cents per satoshi. `Money.Cost` is the truncated price of a quantity and
`Money.Quota` the truncated number of satoshis a cash amount buys at a price.

## Model

| member | source | states |
|---|---|---|
| Money.TruncBounds | market_order.go:50 | Go's `int64(x)` conversion: rounds toward zero, so it is the floor for non-negative `x` and within one of `x` |
| Money.Average | market_order.go:143 | the average price times the satisfied quantity gives back the total cents |
| Money.PaymentWithinCap | market_order.go:50-67 | buying at most `Trunc(cash / price)` satoshis costs between 0 and `cash` cents |
| Money.CostWithinCap | standing_order.go:205-207 | a quantity of any sign within `Trunc(cash / price)` costs at most `cash` |
| Money.TruncSuperadditive | market_order.go:202-203 | truncating two non-negative amounts separately never gives more than truncating their sum |
| Money.CostSplit | market_order.go:202-203 | paying for two non-negative quantities one after the other never costs more than paying for both at once |
| OrderBook.Candidates | market_order.go:28-32 | a row is a candidate iff it is a row of the book that is LIVE, of the requested type and within the limit price (no price filter when the limit is 0) |
| OrderBook.CandidatesCount | market_order.go:28-32 | the filter keeps every admitted row as often as it occurs in the book, and no other row |
| OrderBook.InsertKeepsPriceOrder | market_order.go:29 | inserting a row into a price-ordered sequence keeps it price ordered |
| OrderBook.SortByPrice | market_order.go:29 | the sorted rows are a permutation of the input, in price priority: ascending for sells, descending for buys |
| OrderBook.Window | market_order.go:29 | OFFSET/LIMIT: the `k`-th row of the window is row `offset + k` of the sorted rows, and the window holds `size` rows, or what is left after `offset` when fewer remain, or none past the end |
| OrderBook.RankedRows | market_order.go:28-30 | every row of the ordered query result is a LIVE row of the book of the requested type within the limit, and the rows are in price order |
| OrderBook.WindowKeepsRows | market_order.go:29-30 | OFFSET/LIMIT over admitted rows in price order yields admitted rows in price order |
| OrderBook.StandingOrders | market_order.go:26-41 | the page is the OFFSET/LIMIT window of the admitted rows in price order (`Ranked`): its `k`-th row is ranked row `offset + k`, and it holds `size` rows or all that remain past `offset`; every row is an admitted row of the book; it is reported short (NO_MATCHING_STANDING_ORDERS) iff it has fewer than `size` rows |
| OrderBook.StandingSellOrders | market_order.go:26-41 | getStandingSellOrders: the window at `offset` of the LIVE sells priced at most the limit (any price when it is 0), in ascending price, `size` of them or all that remain; short iff fewer than `size` rows |
| OrderBook.StandingBuyOrders | market_order.go:163-178 | getStandingBuyOrders: the window at `offset` of the LIVE buys priced at least the limit (any price when it is 0), in descending price, `size` of them or all that remain; short iff fewer than `size` rows |
| OrderBook.FirstRowHasBestPrice | market_order.go:29 | price priority: the first row of the first page is at least as good as every order the query admits |
| Settlement.Clamp | market_order.go:49-60 | the settled quantity is at most the request, the cap and the order's remaining quantity, and equals one of them; exhausted iff `requested >= cap` and `cap <= remaining` |
| Settlement.Filled | market_order.go:72-76 | `fulfilled + remaining` is unchanged, remaining drops by the settled quantity, and the state is FULFILLED when remaining reaches 0 and unchanged otherwise |
| Settlement.BuyCap | market_order.go:50 | a buyer with no debt can afford a non-negative number of satoshis |
| Settlement.BuyPaymentCovered | market_order.go:50-67 | paying for at most `BuyCap` satoshis never overdraws the buyer |
| Settlement.BuyFragment | market_order.go:45-92 | settles exactly `Clamp(requested, BuyCap(buyer, price), remaining)`, so at most the request, the buyer's cap and the order's remaining quantity; exhausted iff the cap bound; the buyer pays `Trunc(q * price)` cents to the seller for `q` satoshis; the order is filled by `q`; a buyer with no debt stays out of debt |
| Settlement.SellFragment | market_order.go:182-229 | settles exactly `Clamp(requested, seller's satoshis, remaining)`, so at most the request, the seller's satoshis and the order's remaining quantity; exhausted iff the satoshi balance bound; the seller is paid `Trunc(q * price)` cents for `q` satoshis and never goes below 0 satoshis; a buyer whose cents covered the order still covers what is left of it |
| Matching.SettleWith | market_order.go:45-92 | the fragment as written, with the owner's balances taken from the copy it is given: the ledger stays well formed, no user is added, only the order's row changes, keeping its identity and `fulfilled + remaining` and moving only to FULFILLED |
| Matching.SettleWithWrites | market_order.go:45-92 | the fragment writes the order filled by the settled quantity at its truncated cost, replaces the owner's row by the given copy moved by the fragment (unless the owner is the demander), moves the demander the other way, and leaves every other user alone |
| Matching.Settle | market_order.go:45-92 | the corrected fragment (see Findings), with the owner's balances read from the current table: the ledger stays well formed, no user is added, and rows keep their identity and `fulfilled + remaining` and move only to FULFILLED |
| Matching.Advance | market_order.go:117-120 | one pass of the inner loop: the accumulators keep `remaining + satisfied` |
| Matching.WalkPage | market_order.go:115-127 | the inner loop over a page, stopping on full fill or on exhaustion; keeps the ledger well formed, the user set, the table length and `remaining + satisfied` |
| Matching.WalkPageKeepsRows | market_order.go:115-127 | walking a page keeps every row's id, owner, type, price, webhook and `fulfilled + remaining`, and moves a state only to FULFILLED |
| Matching.MatchFrom | market_order.go:109-132 | the outer loop from a page offset: stops when nothing remains, on exhaustion or after a short page; keeps the ledger well formed and `remaining + satisfied` |
| Matching.MatchFromKeepsRows | market_order.go:109-132 | the whole walk keeps the rows' identities and `fulfilled + remaining` in the same way |
| Matching.NextPage | market_order.go:110 | every row of the page is the row of the book with its id, and matches the opposite side and the limit |
| Matching.Match | market_order.go:97-146 | BuySatoshis / SellSatoshis as a function of the ledger: keeps the ledger well formed, the user set and the table length |
| Matching.Outcome | market_order.go:133-145 | NO_MATCHING_STANDING_ORDERS iff nothing was satisfied; otherwise the satisfied quantity, with the average price times it equal to the cents moved |
| MatchingFacts.TotalUpdate | market_order.go:65-70 | replacing one user's balances changes the total of an asset by exactly the difference |
| MatchingFacts.SettleConserves | market_order.go:65-70 | a fragment between two different users keeps the total USD cents and the total satoshis |
| MatchingFacts.AdvanceConserves | market_order.go:117-120 | one pass of the inner loop against a row the demander does not own keeps each total |
| MatchingFacts.WalkPageConserves | market_order.go:115-127 | walking a page with none of the demander's own orders keeps each total |
| MatchingFacts.WalkPageCredits | market_order.go:115-127 | the demander's balances move by exactly the satoshis and cents the inner loop adds up, even on its own resting orders, since its row is written last |
| MatchingFacts.MatchFromConserves | market_order.go:109-132 | the outer loop keeps each total when the demander has no LIVE order on the side it trades against (`SelfTradeFree`) |
| MatchingFacts.MatchFromCredits | market_order.go:109-132 | the demander's balances move by exactly the satoshis and cents the outer loop adds up, for any book |
| MatchingFacts.MatchConserves | market_order.go:202-207 | a whole market order keeps the total USD cents and satoshis of all users |
| MatchingFacts.MatchCreditsDemander | market_order.go:133-145 | the demander's satoshis move by exactly the reported quantity, and the reported average price is the cents it paid (or got) per satoshi, for any book |
| MatchingBounds.WalkPageBounded | market_order.go:115-127 | the inner loop keeps the demander out of debt, only fills rows, and settles between 0 and what was still wanted |
| MatchingBounds.MatchFromBounded | market_order.go:109-132 | the outer loop keeps the demander out of debt and settles between 0 and the quantity still wanted |
| MatchingBounds.MatchFromOnlyFills | market_order.go:109-132 | the outer loop only lowers remaining quantities, never below 0 |
| MatchingBounds.MatchBounded | market_order.go:109-135 | a reported match settled between 1 and the requested satoshis; a request that is not positive matches nothing and changes nothing; the demander stays out of debt; rows only lose quantity |
| Lifecycle.PledgedCents | standing_order.go:115-123 | a row pledges cents only when it is the owner's LIVE buy, and then a non-negative amount |
| Lifecycle.BlockedNonNegative | standing_order.go:113-142 | with no negative quantity or price in the table, neither blocked total is negative |
| Lifecycle.BlockedAfterUpdate | standing_order.go:113-142 | rewriting one row changes each blocked total by exactly that row's change of pledge |
| Lifecycle.BlockedAfterAppend | standing_order.go:113-142 | an appended row adds exactly its own pledge |
| Lifecycle.NewRecord | standing_order.go:225-232 | the created row: the owner, type, price and webhook given, nothing fulfilled, the whole quantity remaining |
| Lifecycle.Create | standing_order.go:193-253 | the order is appended LIVE iff admitted and CANCELLED otherwise; INSUFFICIENT_BALANCE iff CANCELLED; no balance changes |
| Lifecycle.SellAdmissionCovers | standing_order.go:219-223 | after a LIVE sell is admitted, the owner's blocked satoshis do not exceed its satoshi balance |
| Lifecycle.BuyAdmissionCovers | standing_order.go:205-210 | if the owner's pledged cents were covered, they still are after a LIVE buy is admitted |
| Lifecycle.PledgeWithinAvailable | standing_order.go:205-207 | the buy cap keeps the new pledge within the cash left over by the other pledges |
| Lifecycle.Execute | standing_order.go:144-188 | with no match the ledger is unchanged (rolled back); otherwise the order's row is the caller's order filled by the satisfied quantity |
| Lifecycle.ExecuteBounded | standing_order.go:155-173 | a match settles between 1 and the order's remaining quantity; `fulfilled + remaining` is kept; the order is FULFILLED iff nothing remains and stays LIVE otherwise; the owner stays out of debt; other rows only fill |
| Lifecycle.ExecuteConserves | standing_order.go:150-154 | executing an order against other users' orders keeps the total cents and satoshis |
| Lifecycle.ExecuteCreditsOwner | standing_order.go:150-154 | the owner's balances move by exactly the satoshis reported, at the reported average price |
| Lifecycle.Place | standing_order.go:246-252 | the order is the one `Create` makes; INSUFFICIENT_BALANCE iff it is CANCELLED; a LIVE order is executed against the table that already holds it, and the tables are those `Execute` leaves; a CANCELLED order leaves the tables `Create` left |
| Lifecycle.PlaceConserves | standing_order.go:246-252 | INSUFFICIENT_BALANCE iff not admitted; creation and execution together keep the total cents and satoshis |
| Lifecycle.Delete | standing_order.go:78-105 | an unknown id is not found and a non-owner is refused, both with nothing changed; the owner's order becomes CANCELLED whatever its state, with quantities and balances untouched |
| Lifecycle.DeleteIdempotent | standing_order.go:78-105 | deleting a second time gives the same ledger and result as deleting once |
| Lifecycle.DeleteReleasesPledges | standing_order.go:86-96 | a deleted order's owner's blocked totals fall by exactly its pledge, never rise, and other users' do not change |
| Exchange.ClampDemand | market_order.go:49-60 | the step-by-step clamps compute `Settlement.Clamp` |
| Exchange.FillOrder | market_order.go:72-76 | the step-by-step bookkeeping computes `Settlement.Filled` |
| Exchange.Exchange.BuyViaStandingOrder | market_order.go:45-92 | the new tables and the results are those of `Matching.Settle` for a buy; the tables stay well formed |
| Exchange.Exchange.SellViaStandingOrder | market_order.go:182-229 | the new tables and the results are those of `Matching.Settle` for a sell |
| Exchange.Exchange.SettleRow | market_order.go:117-120 | one inner-loop pass computes `Matching.Advance` |
| Exchange.Exchange.WalkOrders | market_order.go:115-127 | the inner loop computes `Matching.WalkPage` |
| Exchange.Exchange.MatchSatoshis | market_order.go:97-146 | BuySatoshis / SellSatoshis leave the tables and return the result of `Matching.Match` |
| Exchange.Exchange.WalkBook | market_order.go:109-132 | the paged outer loop ends with the tables and accumulators of `Matching.MatchFrom` from offset 0 |
| Exchange.Exchange.MatchPage | market_order.go:110-131 | one outer-loop pass either stops with the result of `Matching.MatchFrom` at its offset or leaves the same walk to continue from the next page |
| Exchange.Exchange.GetBlockedUsdCents | standing_order.go:113-126 | the accumulation loop returns `Lifecycle.BlockedUsdCents` of the table |
| Exchange.Exchange.GetBlockedSatoshis | standing_order.go:129-142 | the accumulation loop returns `Lifecycle.BlockedSatoshis` of the table |
| Exchange.Exchange.CreateStandingOrder | standing_order.go:193-244 | the tables, the created order and the INSUFFICIENT_BALANCE flag are those of `Lifecycle.Create` |
| Exchange.Exchange.ExecuteStandingOrder | standing_order.go:144-188 | the tables and the result are those of `Lifecycle.Execute`; the snapshot is restored when nothing matched |
| Exchange.Exchange.PlaceStandingOrder | standing_order.go:246-252 | the tables, order and flag are those of `Lifecycle.Place` |
| Exchange.Exchange.DeleteStandingOrder | standing_order.go:78-105 | the tables and the result are those of `Lifecycle.Delete` |
| MatchingProgress.SettleClamps | market_order.go:49-60 | a fragment against a row of the ledger settles the clamp of what is wanted, the demand side's cap (`DemandCap`: the satoshis the buyer's cash buys, or the seller's satoshis) and the row's remaining quantity, and reports exhaustion as the clamp does |
| MatchingProgress.AdvanceEmptiesRow | market_order.go:117-126 | a pass after which the inner loop goes on (something still wanted, demand side not run out) has emptied its row, which is now FULFILLED |
| MatchingProgress.WalkPageKeepsEmptied | market_order.go:115-127 | an emptied row stays empty and FULFILLED for as long as the walk goes on |
| MatchingProgress.WalkPageEmptiesPage | market_order.go:115-127 | the inner loop's stop condition: a page walk that ends with satoshis still wanted and the demand side not run out has emptied every row of the page |
| MatchingProgress.WalkAfterFirst | market_order.go:115-127 | a page walk settles at least its first fragment and only fills rows after it |
| MatchingProgress.MatchFromAfterPage | market_order.go:109-132 | the outer loop settles at least what the walk of its current page settled, and only fills rows after it |
| MatchingProgress.MatchTradesBestRow | market_order.go:109-146 | a positive request whose demander can afford at least one satoshi of the best-priced admitted order, which has some left, is reported as a match of at least the first fragment, settled against that order, which loses at least that fragment |
| MatchingFrame.AdvanceFrame | market_order.go:117-120 | one inner-loop pass against a row the query admitted writes no row the query did not admit, changes no owner, and leaves every bystander's balances (neither the demander nor the owner of an admitted row) |
| MatchingFrame.WalkPageFrame | market_order.go:115-127 | the inner loop over admitted rows keeps the same frame |
| MatchingFrame.PageAdmittedAtStart | market_order.go:110 | while unadmitted rows are unchanged, every row of a later page is a row the query admitted in the starting ledger |
| MatchingFrame.PageFrame | market_order.go:110-127 | walking the page the query returns keeps the same frame |
| MatchingFrame.MatchFromFrame | market_order.go:109-132 | the outer loop keeps the same frame |
| MatchingFrame.MatchFrame | market_order.go:97-146 | nothing else changes: a match leaves every row the query does not admit exactly as it was, and every bystander's balances |
| MatchingFrame.MatchKeepsCancelled | market_order.go:28-31 | a CANCELLED order is never filled by a match |
| PledgeCoverage.CoveredOwnerStaysSolvent | market_order.go:45-92 | a fragment against a resting order its owner still covers (the satoshis of a sell, the cost of a buy) leaves the owner out of debt |
| PledgeCoverage.MarketSellSpendsPledge | market_order.go:186-197 | as written: a seller holding 10 satoshis sells all 10 at market, capped by the whole balance, pledged satoshis included |
| PledgeCoverage.UncoveredSellOverdrawsOwner | market_order.go:49-70 | as written: buying 10 satoshis from a resting sell whose owner holds none leaves the owner 10 satoshis in debt |
| PledgeCoverage.PledgedSatoshisSpentTwice | market_order.go:45-92 | as written: an owner whose resting sell is covered market-sells the same satoshis, and a buy against the still-LIVE sell then leaves it 10 satoshis in debt |
| StaleOwnerCopy.AdvanceAsWritten | market_order.go:46-84 | one inner-loop pass as written, with the owner's balances from the copy loaded with the page: keeps the ledger well formed and `remaining + satisfied` |
| StaleOwnerCopy.AdvanceAsWrittenSettles | market_order.go:46-84 | that pass adds exactly the fragment `Matching.SettleWith` settles to the accumulators |
| StaleOwnerCopy.WalkPageAsWritten | market_order.go:46-84 | the inner loop with each row's owner taken from the copy loaded with the page; keeps the ledger well formed and `remaining + satisfied` |
| StaleOwnerCopy.StaleOwnerCopyLosesCents | market_order.go:46-84 | as written: buying 10 satoshis from one seller's two rows on one page leaves the seller 5 cents and 15 satoshis instead of 10 and 10 |
| StaleOwnerCopy.CurrentOwnerKeepsCents | market_order.go:46-84 | corrected: the same walk against current balances leaves the seller 10 cents and 10 satoshis |
| StaleOwnerCopy.StaleOwnerCopyBreaksConservation | market_order.go:65-84 | as written that walk destroys 5 cents and creates 5 satoshis; corrected it keeps both totals |

## Left out

- HTTP, JSON and URL handling (`marketOrderHandler`, the standing-order handlers, request parsing): request plumbing only.
- Webhook delivery (`PerformWebhookRequest`, standing_order.go:64-75): network I/O. The model takes every webhook to succeed. In the source a failed POST leaves a nil response whose `Body.Close()` panics. Inside the matcher (after each fragment, market_order.go:90 and 227) the deferred recover turns that panic into an error (market_order.go:102-107), and the caller rolls back every fragment of the match: the market order handler at market_order.go:338-342, a standing-order execution at standing_order.go:163-166. After a commit (standing_order.go:103 and 186, the latter in the goroutine of standing_order.go:250, which has no recover) the panic ends the process. None of these outcomes is modelled.
- The goroutine in `CreateStandingOrder` (standing_order.go:250): `Lifecycle.Place` runs execution after creation, in sequence, on the order as created. Interleaving with other transactions, repeatable-read isolation and the stale `user` object of the background call are not modelled.
- Transactions: `Begin`/`Commit`/`Rollback`, the panic/recover of the matching loops, and database errors. Storage is taken as infallible. The one rollback inside the modelled core, on NO_MATCHING_STANDING_ORDERS in `ExecuteStandingOrder`, is modelled as restoring the tables.
- Unit conversions in `Buy`, `Sell` and `CreateStandingOrder` (×1e8 to satoshis, /1e6 to cents per satoshi): float code outside the core. Quantities enter as integer satoshis and prices as cents per satoshi.
- The float `AveragePrice` column of an order: not modelled. The average a match reports is an exact real.
- Floating point in general: products and quotients are exact reals before truncation, so float rounding is not modelled.
- 64-bit overflow of balances and quantities: integers are unbounded.
- Ties in `ORDER BY limit_price`: the database may return equal prices in any order. The model fixes one order for tied rows, and every property holds for it.
- `Lifecycle.Create`, `Lifecycle.Execute`, `Lifecycle.Place`: require a positive limit price. Every matcher member inherits the same requirement for the rows of the book through `Matching.WellFormed`: `Matching.Settle`, `Matching.SettleWith`, `Matching.Advance`, `Matching.WalkPage`, `Matching.MatchFrom`, `Matching.Match`, the lemmas of `MatchingFacts`, `MatchingBounds`, `MatchingFrame` and `MatchingProgress`, and the `Exchange.Exchange` methods. The source checks no price. A BUY at price 0 makes Go's float division give an infinity, which `int64` converts in an implementation-defined way. A SELL at price 0 or below divides nothing at admission (standing_order.go:219-223), so it is born LIVE; executing it at limit 0 removes the price filter of the buy query (market_order.go:165-166), and a buy against it pays nothing or a negative amount. None of this is modelled.
- Negative quantities: the source does not reject them, and neither does the model. Bounds lemmas such as `MatchingBounds.MatchBounded` assume balances and remaining quantities that are not negative.
- `MatchingFacts.SettleConserves`, `MatchingFacts.AdvanceConserves`, `MatchingFacts.WalkPageConserves`, `MatchingFacts.MatchFromConserves`, `MatchingFacts.MatchConserves`, `Lifecycle.ExecuteConserves`, `Lifecycle.PlaceConserves`: proved only without self-trade: for one fragment the resting order's owner is not the demander, and for a page or a whole walk the demander has no LIVE order on the side it trades against (`SelfTradeFree`). In a self-trade the source saves two copies of the same user, and the last save wins.
- `Matching.Settle`, `Matching.Advance`, `Matching.WalkPage`, `Matching.MatchFrom`, `Matching.Match`, `MatchingFacts.SettleConserves`, `MatchingFacts.AdvanceConserves`, `MatchingFacts.WalkPageConserves`, `MatchingFacts.MatchFromConserves`, `MatchingFacts.MatchConserves`, `Lifecycle.Execute`, `Lifecycle.Place`, `Lifecycle.ExecuteConserves`, `Lifecycle.PlaceConserves`, `Exchange.Exchange.BuyViaStandingOrder`, `Exchange.Exchange.SellViaStandingOrder`, `Exchange.Exchange.SettleRow`, `Exchange.Exchange.WalkOrders`, `Exchange.Exchange.MatchPage`, `Exchange.Exchange.WalkBook`, `Exchange.Exchange.MatchSatoshis`, `Exchange.Exchange.ExecuteStandingOrder`, `Exchange.Exchange.PlaceStandingOrder`: settle each fragment against the owner's current balances, the corrected behaviour of the finding below, not against the copy of the owner loaded with the page that market_order.go:46 and 183 take. The fragment as written is `Matching.SettleWith` given that copy, and only `StaleOwnerCopy.WalkPageAsWritten` walks a page with it; for the code as written a match does not keep the totals (`StaleOwnerCopy.StaleOwnerCopyBreaksConservation`).
- Counterparty solvency: a market sell is capped by the seller's whole satoshi balance (market_order.go:187), pledged satoshis included, so it can spend the satoshis that back the seller's own LIVE sell; a later buy against that sell then debits satoshis the owner no longer has (market_order.go:70). The model keeps this behaviour (`PledgeCoverage.PledgedSatoshisSpentTwice`), and no member promises that a resting order's owner stays out of debt after a match. `PledgeCoverage.CoveredOwnerStaysSolvent` proves it for one fragment only while the owner still covers the order. The source states no intended rule, such as capping by unpledged satoshis or cancelling the pledged order, so no corrected matcher is modelled.
- `Matching.MatchFrom`: reproduces the offset advance of market_order.go:109 (and 246) as written. Rows filled to FULFILLED drop out of the LIVE filter while the offset still moves on by 10, so after a fully consumed page the next LIVE orders can be skipped. No property says that every eligible order is visited.
- The `fundsExhausted` / `satoshisExhausted` flag declared at market_order.go:101 and 238: shadowed inside the loop and only logged. The inner loop's flag is the one modelled.
- balance.go, users.go and main.go: the price lookup, top-up, registration, authentication and process setup are not part of this model.

## Findings

| source | as written | input that shows it | evidently intended | confidence | as-written member | corrected member |
|---|---|---|---|---|---|---|
| market_order.go:46 (and 183) | each resting order's owner is `standingOrder.User`, a copy of the user loaded with the page; saving it overwrites any earlier fragment's credit to the same user in the same page | buyer `a` (1000 cents, 0 satoshis) buys 10 satoshis; seller `s` (0 cents, 20 satoshis) rests two sells of 5 satoshis at 1 cent on one page; afterwards `s` holds 5 cents and 15 satoshis, so 5 cents vanish and 5 satoshis appear | each fragment reads the owner's current balances, so `s` ends with 10 cents and 10 satoshis and both totals are kept | high; not executed | StaleOwnerCopy.StaleOwnerCopyLosesCents | MatchingFacts.WalkPageConserves |
