# The money path and the round lifecycle of the binary-market engine, proved

The service runs six rolling streams of binary rounds (BTC, ETH and SOL, five and
fifteen minutes). In each round users trade YES and NO shares on a price-time-priority
book, matches are settled against a wallet service over an unreliable network, and when
the round ends every winning share pays one BI2XUSD. This project models that path and
proves what it keeps: who gets matched, that money arrives before shares, that nothing is
lost or paid twice, that rounds tile time, and how far truncation can make the pool fall
short.

The model has two levels, tied together everywhere.

* **State machines.** `Market` is one window's money path, `Payout` adds its settlement,
  `Rounds` is the life of all windows, `Broadcast` adds the cache the live feed reads.
  An event is one atomic step of the service together with what the network or the
  database made of it: acknowledged, took effect but the reply was lost, or never arrived.
  An event that is impossible in a state changes nothing, so "every run" means every
  sequence of events: any interleaving of users, overlapping sales of one user, retries,
  concurrent settlers, failures and crashes. Where a result needs more it says so by a
  predicate of the run: `Protocol.CalmlyReachable` (one settler a row, no death between
  write and erase) or `Debts.CoveredReachable` (no netting above what its user holds).
* **Imperative classes.** `Tables.Repo` and `Tables.Backend` are the tables and the wallet
  service; `Matching.Matcher`, `Sweeper.Manager`, `Keeping.Keeper` and
  `RateLimit.LimiterStore` are the source's objects with its loops. Each method is proved
  to be a run of its machine whatever fails, and, when nothing fails, exactly the run or
  the function its name promises.

Units: prices are integers in 1e-4, sizes in 1e-18, money in "grains" of 1e-27, so that a
fee of 15 or 45 hundred-thousandths of price times size is exact; a raw unit of the wallet
service is 1e21 grains. Index prices are integers in 1e-18, times milliseconds (nanoseconds
for rate limiting). `Types.Seen` only steers the verifier; its comment explains the one
device it serves.

| file | what it holds |
|---|---|
| Sums, Types, Money | sums; the entities; truncation, cost and fee split, refunds, rounding |
| Book, Depth | the order table, the matching loop, the public depth |
| Ledger, Market | movements, fills, positions; the window's machine and its invariant |
| Protocol, Debts, Funding, Holds, Selling, Average | results over every run of that machine |
| Scenarios | concrete runs that meet a bound or a hypothesis exactly |
| Tables, Matching, Sweeper | the tables, the matcher, the reconciliation sweep, the refund and payout loops |
| Payout | the settlement machine and its results |
| Commitment, Rounds, Ticks, Broadcast, Keeping | commit-reveal, the round machine, healthy ticks and catching up, the feed, the manager's loops |
| RateLimit, Pricing | the per-address limiter; the shape of the displayed price |

## What the model assumes

* An order's insert and its matching transaction commit together. The code inserts first
  (internal/round/matcher.go:67) and matches in a later transaction (line 88);
  `Book.UnmatchedOrderCrossesIff` says exactly when the gap would leave a crossed book.
* Prices have at most 4 decimals and sizes at most 18, the scales of the columns.
* The wallet service applies a keyed call at most once for each endpoint and key, as its
  documentation at internal/backendclient/backendclient.go:145-150 says.
* One manager process, and a clock that does not run backwards.
* A placement is one step, taken while the window is open. The handlers check only that it is
  open when the request comes in; no lock keeps two placements apart.
* A stored average is rounded once, to the 4 decimals of its column. Postgres first rounds the
  quotient to a scale of its own, which can move a tie. An average of 100 or more does not fit
  its NUMERIC(6, 4) column and fails the update; the width of the shares column is not modelled.
* Ids grow with creation time, and listings without an ORDER BY come in id order.

## Where the code and its words differ

* `MarkPositionPaid` and the payout loop call the payout resumable (internal/repo/repo.go:439-442,
  internal/db/db.go:118-121). Only `locked` windows are scanned, and the window is settled
  before the loop starts, so an interrupted payout is never resumed: `Payout.NobodyResumes`,
  `Payout.NothingIsEverResumed`.
* The comment on `NetPositions` (internal/repo/repo.go:482-484) says its caller moves cash.
  `Sell` makes no credit call, so netted value stays in the pool; it is a term of the funding
  results.
* A settlement retry is said to be safe (internal/round/matcher.go:193-196). It is for the four
  remote calls; the position transaction and the delete are separate commits, and nothing looks
  whether the row is filled already. Over every run, each match is written once if and only if no
  position transaction is committed for a row that has a fill: `Protocol.WrittenOnceIff`. A clean
  retry is safe exactly when the row has none, or the database rejects it:
  `Protocol.RetryIsSafeIff`. A run that ends with nothing pending is exactly funded if and only if
  it never writes again: `Funding.FundedAtRestIffNeverWrittenAgain`. It does happen, by a crash
  between the two commits (`Scenarios.CrashedSettlementIsWrittenTwice`) and with no failure at all,
  when a settler stalls past the sweep's grace period (`Scenarios.StalledSettlementIsWrittenTwice`).
* A sale checks the position, then trades, then subtracts what was filled
  (internal/round/matcher.go:262-284), with nothing to keep two sales of one user apart. When
  they overlap a row can fall below zero: `Selling.OverlappingSalesOverdrawIff` says exactly
  when, `Debts.NeverInDebtIffCovered` which runs avoid it, and `Scenarios.OverlappingSalesOverdraw`
  gives a run without a single fault that does not.
* The average of a position is called size-weighted (internal/repo/repo.go:411-412). On a row below zero
  it can leave the range of the prices paid, and a fill of exactly the debt divides by zero, so
  that match's position transaction fails on every retry: `Money.BlendLiesBetweenIff`,
  `Debts.RejectedAtExactDebt`, `Protocol.CleanCallSettles`.
* A position's average is said to be a size-weighted entry price (internal/models/models.go:136). A NO maker is recorded at the YES
  price of the match while it pays the complement (internal/round/matcher.go:198-205, 235):
  `Ledger.MakerPriceIsPaidIff` says exactly when the two agree and `Average.AverageTracksTheCost`
  what becomes of the average when they do not.
* An order's remainder is meant to be given back once. It is given back twice exactly when both its
  refund at round lock and its owner's cancellation get through: `Holds.ReleasedTwiceIff`, and
  `Scenarios.ListedOrderIsReleasedTwice` for a run without a fault.
* The comment at internal/round/matcher.go:210-213 has both sides debited against their lock. The
  lock of a NO order uses 1 - price while a pair is compatible from p + q = 1 up, so a taker's
  cost can exceed its lock: `Money.TakerHoldCoversCostIff` says exactly when.
* The round cache is said to be refreshed on commit (internal/roundcache/roundcache.go:8-9). It is
  not, and a late settlement replaces the entry of the round that is trading:
  `Broadcast.LateSettlementHidesTheNextRound`, in a run whose every statement takes effect by
  `Broadcast.FaultFreeRunHidesTheNextRound`. `Broadcast.SilencedIff` lists all that can silence it.
* The clamp of the displayed price to 0.01 and 0.99 never binds: `Pricing.ClampNeverBinds`.

## Model

| member | source | states |
|---|---|---|
| Book.OpposingBookIsTheBook | internal/repo/repo.go:299-319 | the book query's result holds every open order of the side and nothing else, highest price first and at one price oldest first, and any list with these properties is that result |
| Book.SweepTotal | internal/round/matcher.go:93-144 | the loop fills the smaller of the size wanted and what the compatible makers of the book offer |
| Book.SweepConsumesWhole | internal/round/matcher.go:93-144 | every maker before the last one touched is consumed whole, and all of them if anything is still wanted |
| Book.SweepConsumesAPrefix | internal/round/matcher.go:94-113 | makers are consumed as a prefix of the sorted book, and skipping an incompatible price is the same as stopping at it |
| Book.PlaceAt | internal/round/matcher.go:133-157 | after a placement each maker of the takes has gained exactly its take, and every other old row is unchanged |
| Book.PlacementMeetsItsSpecification | internal/round/matcher.go:93-157 | the new row is the order submitted, filled by min(size, compatible open remainder of the table); it and every row it fills are open exactly while not full and filled exactly when full; makers go in priority order, all but the last filled; the rest of the book and every other order are untouched; each fill is within the taker's limit |
| Book.PlaceKeepsTheQueue | internal/repo/repo.go:299-319 | nobody trades while an order of its side with a better price, or the same price and an earlier place, has anything left |
| Book.PlaceFills | internal/round/matcher.go:133-143 | an old row changes only by filling further, on its own terms, against a price with which it adds up to one |
| Book.PlaceKeepsUncrossed | internal/round/matcher.go:88-157 | a placement on an uncrossed table leaves no open YES at p and open NO at q with p + q >= 1 |
| Book.PlaceKeepsTableOk | internal/round/matcher.go:135-155 | statuses and fills stay consistent: 0 <= filled <= size, and an open order has filled < size |
| Book.RestingOrderExhaustedTheBook | internal/round/matcher.go:93-155 | when the incoming order rests with a remainder, every order it could have traded with has been filled |
| Book.ClosingKeepsUncrossed | internal/repo/repo.go:332-359 | taking an order off the book never crosses it |
| Book.TakesIgnoreNewRow | internal/round/matcher.go:67-89 | the incoming order's own row, already in the table, does not change what it matches |
| Book.UnmatchedOrderCrossesIff | internal/round/matcher.go:67-89 | an order inserted but not yet matched leaves the books uncrossed if and only if there was nothing to match it with |
| Depth.PublicDepthAgreesWithMatcher | internal/repo/repo.go:268-290 | the public depth is strictly descending with positive levels, sums to the open remainder from any price down, and an incoming order at p fills exactly min(size, depth of the other side at 1 - p or better) |
| Money.SplitConserves | internal/round/matcher.go:200-205 | maker cost plus taker cost is exactly the matched size |
| Money.CostsAndFees | internal/round/matcher.go:18-21 | the YES side of a match pays its price a share and the NO side the rest, and the maker 0.00015 and the taker 0.00045 of its cost as fee |
| Money.HoldInFull | internal/round/matcher.go:58-62 | a lock is price times size for YES and 1 - price times size for NO, truncated to 1e-6 |
| Money.MakerPaysItsHold | internal/round/matcher.go:58-62 | a maker's cost is exactly what its lock reserved for the filled part |
| Money.TakerHoldCoversCostIff | internal/round/matcher.go:58-62 | a taker's lock covers its cost if and only if the YES price of the pair is at least the NO price |
| Money.TakerHoldCanFallShort | internal/round/matcher.go:103-113 | a compatible pair (0.30 and 0.80) whose taker locks 300000 raw units and pays 800000 |
| Money.RawEachBounds | internal/backendclient/backendclient.go:32-34 | truncating n non-negative amounts one by one loses between 0 and n - 1 raw units against truncating their sum |
| Money.RawPooledBounds | internal/round/matcher.go:200-228 | truncated debits less truncated fees of one match lie between one unit below and two above the truncated size |
| Money.RawPooledBoundsAreTight | internal/round/matcher.go:200-228 | both ends of that range are reached |
| Money.CentSizesPoolExactly | internal/round/matcher.go:200-228 | sizes that are multiples of 0.01 pool exactly their size, fees included |
| Money.RefundConserves | internal/round/manager.go:229-241 | refund of the remainder plus truncated value of the filled part is the lock or one raw unit less, and the refund never exceeds the lock |
| Money.BlendLiesBetweenIff | internal/repo/repo.go:418 | before rounding, an update's new average lies between the old one and the price if and only if the holding is not negative (or the two agree) |
| Average.OnlyRecordsWriteAverages | internal/repo/repo.go:413-423 | averages change only through a position transaction; netting leaves them |
| Average.StoredAverageStaysWithinFills | internal/repo/repo.go:413-423 | in every run in which each of the user's nettings was covered, whatever else happens, a stored average lies within the prices of the fills that built the row |
| Average.StoredAverageDrift | internal/repo/repo.go:413-423 | for a user who never netted, the stored average after n updates is within n * 0.00005 of the exact size-weighted average of the prices recorded |
| Average.AverageTracksTheCost | internal/round/matcher.go:200-240 | and within that of what the user paid a share, plus what NO fills it made were recorded beyond their cost; that is nothing on the YES side, and on the NO side if the user made none away from one half |
| Ledger.PoolByMatch | internal/round/matcher.go:217-228 | the pool summed movement by movement equals the pool summed match by match |
| Ledger.PlanPrefixPools | internal/round/matcher.go:217-228 | every prefix of the four movements leaves the pool no poorer, two or more cover the size, and all four pool exactly the size |
| Ledger.UpsertEffect | internal/repo/repo.go:413-423 | a position upsert adds the shares to that user and side and to nobody else |
| Ledger.TakerPriceIsPaid | internal/round/matcher.go:230-233 | a taker's position is recorded at the price of its own side, which is what a share cost it |
| Ledger.MakerPriceIsPaidIff | internal/round/matcher.go:235 | a maker's is recorded at the YES price, which is what a share cost it if and only if it is on the YES side or the price is one half |
| Ledger.FirstFillIs | internal/round/matcher.go:230-240 | a match gives a user without a row one of its size at that price, on either side |
| Ledger.UpsertKeepsRows | internal/db/db.go:112 | rows stay unique in user and side, and adding shares puts nobody in debt |
| Ledger.NoDebtsRecords | internal/round/matcher.go:234-247 | without debts neither update of a match can fail, at the divisor or at the column |
| Ledger.NetEffect | internal/repo/repo.go:485-492 | netting takes the amount from both of the user's rows and from no other user's |
| Ledger.FillTotalByMatch | internal/repo/repo.go:401-407 | fill rows summed in table order equal the sizes summed match by match with multiplicity |
| Market.SubmitKeepsTrading | internal/round/matcher.go:88-157 | a placement keeps the whole match ledger: uncrossed, every order's fill the sum of its matches, both sides' totals equal to the matched total |
| Market.CloseKeepsTrading | internal/repo/repo.go:332-359 | a cancellation or a closing refund keeps the match ledger |
| Market.WithdrawKeepsUnlocks | internal/round/matcher.go:293-303 | a cancellation's release is of the order's remainder, and there is one at most for each order |
| Market.RefundKeepsUnlocks | internal/round/manager.go:224-257 | so it is with the releases of the refund loop, which visits each listed order once |
| Market.LandKeepsLog | internal/backendclient/backendclient.go:145-153 | a keyed movement lands in plan order or was there already, and never disturbs another match |
| Market.SendKeepsProtocol | internal/round/matcher.go:217-228 | a remote call keeps the protocol invariant whatever becomes of it |
| Market.RecordKeepsProtocol | internal/round/matcher.go:234-247 | the position transaction is counted once for the attempt that committed it, with all four movements landed |
| Market.EraseKeepsProtocol | internal/repo/repo.go:556-559 | a pending row disappears only after its positions were written |
| Market.StopKeepsProtocol | internal/round/matcher.go:170-172 | a caller that fails or dies at any stage leaves the invariant intact |
| Market.RecordKeepsPositions | internal/round/matcher.go:234-247 | a position transaction that succeeds keeps positions plus netted shares equal to the recorded fills, user by user and in total |
| Market.NetKeepsPositions | internal/repo/repo.go:485-492 | so does netting any amount, held or not, from a user with a row on each side |
| Market.EventKeepsInv | internal/round/matcher.go:53-303 | every event of the window's machine keeps the whole invariant |
| Market.RunsKeepInv | internal/round/matcher.go:53-303 | the invariant holds in every state of every run |
| Protocol.EffectsLandInPlanOrderAtMostOnce | internal/round/matcher.go:217-228 | in every run the movements landed for a match are a prefix of maker debit, taker debit, maker fee, taker fee, and none is in the log twice |
| Protocol.NoMatchIsLost | internal/round/reconcile.go:14-41 | a committed match is still pending, or all four movements landed and its positions were written |
| Protocol.PositionsFollowTheMoney | internal/round/matcher.go:217-247 | positions are written only after all four movements landed |
| Protocol.SendLandsIff | internal/round/matcher.go:217-228 | a movement is in once its request arrived, reply or no reply, and the routine goes on if and only if it got the reply |
| Protocol.CommitsWhateverIsHeard | internal/round/matcher.go:234-248 | so with the position transaction and the delete: what committed stays committed, heard of or not |
| Protocol.HistoryGrows | internal/round/matcher.go:88-157 | matches, landed movements, fills, releases and nettings are only ever appended to |
| Protocol.CleanCallSettles | internal/round/matcher.go:197-249 | from any state an undisturbed settlement of a pending row lands the movements that were missing, and writes the positions once and erases the row if and only if the database takes the position transaction; otherwise the row stays |
| Protocol.SweepEmptiesItsRows | internal/round/reconcile.go:22-41 | a fault-free sweep whose position transactions are all taken erases exactly its stale rows and records each once |
| Protocol.SweepErasesAllIff | internal/round/reconcile.go:22-41 | a fault-free sweep clears all of its rows if and only if each one's position transaction is taken when its turn comes |
| Protocol.SweepWithoutDebts | internal/round/reconcile.go:22-41 | as long as no row is below zero it does |
| Protocol.PositionsWrittenOncePerWrittenAttempt | internal/round/matcher.go:234-248 | in every run a match's positions are written exactly as often as attempts got past their position transaction, at least once when it is no longer pending |
| Protocol.StepWritesOnceIff | internal/round/matcher.go:234-248 | one event keeps every match written at most once if and only if it commits no position transaction for a row already filled |
| Protocol.WrittenOnceIff | internal/round/matcher.go:234-248 | over every run each match is written at most once if and only if no event of the run does that |
| Protocol.RetryIsSafeIff | internal/round/matcher.go:193-196 | a clean retry of a pending row keeps every match written at most once if and only if the row is not filled yet or the database rejects the position transaction |
| Protocol.SweepIsSafeIff | internal/round/reconcile.go:22-41 | a fault-free sweep that is taken in full does so if and only if none of its rows is filled yet |
| Protocol.RetryAfterCrashWritesAgain | internal/round/matcher.go:234-248 | from any state with positions written and the row not yet erased, a crash and a clean retry write them again if the position transaction is taken, and change no fill and no row if not |
| Protocol.CalmRunsWriteOnce | internal/round/matcher.go:234-248 | with one caller a row and no death between write and erase, positions are written at most once, and exactly once when the row is gone |
| Protocol.PendingAndFilledPartitionTheMatches | internal/round/matcher.go:234-248 | in such runs, outside the write-erase gap, each match is pending or filled and never both |
| Debts.StepNoDebtIff | internal/repo/repo.go:485-492 | from a state without debt of a user, one event leads into debt if and only if it nets more than the user holds |
| Debts.NeverInDebtIffCovered | internal/round/matcher.go:261-290 | over every run, a user is never in debt if and only if each of its nettings was covered when it happened |
| Debts.CoveredHoldings | internal/repo/repo.go:485-492 | in such runs holdings are the recorded fills less the nettings, and never negative |
| Debts.HoldingsGrow | internal/round/matcher.go:234-247 | along any run in which a user does not net, its holdings change by exactly what is recorded for it, and never shrink |
| Debts.SerialSalesAreCovered | internal/round/matcher.go:261-290 | a user each of whose sales checks the position, has its hedge recorded and nets before the next one nets is never in debt, whatever everyone else does |
| Debts.DebtDrivesAverageOutside | internal/repo/repo.go:418 | ten shares short at 0.5, a fill of 20 at 0.6 stores 0.7 |
| Debts.RejectedIff | internal/repo/repo.go:413-423 | an update is rejected if and only if the row exists and the divisor is zero or the new average is 100 or more |
| Debts.RejectedAtExactDebt | internal/repo/repo.go:418 | an update by exactly the debt of its row is rejected |
| Funding.FundingPrecedesPositions | internal/round/matcher.go:197-249 | in every reachable state where no match was written twice, landed debits less landed fees cover the YES shares (debts deducted) plus netted shares, which equal the NO shares plus netted shares |
| Funding.FundedAtRestIff | internal/round/matcher.go:234-248 | with nothing pending, the pool equals the claims if and only if no match was written twice, and is short otherwise |
| Funding.FundedAtRestIffNeverWrittenAgain | internal/round/matcher.go:234-248 | a run that ends with nothing pending is exactly funded if and only if it never commits a position transaction for a row already filled, and is short otherwise |
| Funding.CalmRunsAreFunded | internal/round/reconcile.go:22-41 | calm runs are funded in every state and exactly at rest |
| Funding.CrashBetweenWriteAndEraseLeavesPoolShort | internal/round/matcher.go:234-248 | a crash in the gap, then a clean retry, empties the pending rows if and only if the position transaction is taken, and then leaves the pool below the claims |
| Scenarios.CrashedSettlementIsWrittenTwice | internal/round/matcher.go:234-248 | a run with one crash between write and erase, then a clean retry, after which nothing is pending, the match is written twice and the pool is short |
| Scenarios.StalledSettlementIsWrittenTwice | internal/round/reconcile.go:12 | a run without a failure in which a stalled settler writes a row the sweep has settled, with the same end |
| Funding.BothSidesHoldTheSame | internal/round/matcher.go:234-247 | in every run YES shares equal NO shares, debts deducted, and both are the recorded fills less what was netted; nobody is in debt if every user's nettings were covered |
| Funding.EveryPositionIsItsFills | internal/round/matcher.go:234-247 | in every run, user by user and side by side, shares held plus netted are the fills recorded for them; not negative if the user's nettings were covered |
| Funding.RawPoolBounds | internal/backendclient/backendclient.go:32-34 | in every reachable state, match by match and with any prefix of its movements in, the raw pool lies between what the landed movements guarantee and what they allow |
| Funding.RawPoolAtRest | internal/backendclient/backendclient.go:32-34 | at rest that is within n below and 2n above the n truncated sizes |
| Funding.RawShortfallBound | internal/round/manager.go:356 | in every reachable state with no match written twice, whatever is pending or in flight, paying a side and all netted shares costs at most 2n - 1 raw units more than the pool holds, n the recorded fills, plus the side's debts |
| Scenarios.RawShortfallBoundIsReached | internal/round/manager.go:356 | a run with two fills, nothing pooled and three raw units to pay: the bound 2n - 1 is reached |
| Funding.CentRunsPayExactly | internal/round/manager.go:356 | at rest, each match written once and everything in whole cents, the raw pool plus the side's debts is exactly the payout plus the netted shares |
| Holds.BookIsNeverCrossed | internal/round/matcher.go:88-157 | over every run of placements, cancellations, sales and refunds no two open orders could trade with each other |
| Holds.FillsAreMatches | internal/repo/repo.go:321-328 | every order's fill is the sum of the matches naming it, within its size, and YES and NO fill in equal total |
| Holds.LeavesTheBook | internal/round/manager.go:224-257 | an order leaves the book by filling up, by its owner's withdrawal, or by a refund after trading has stopped, which makes it filled if any of it filled and cancelled if not |
| Holds.OffTheBookStays | internal/repo/repo.go:332-359 | an order off the book never changes again |
| Holds.StatusesAreTrue | internal/round/matcher.go:133-157 | in every reachable state open and cancelled orders have something left, filled ones have filled something and, while trading, all of it, and a full order is filled |
| Holds.MatchesRespectTheLimits | internal/round/matcher.go:105-117 | every match executes at its maker's price and its pair is compatible |
| Holds.ReleasedTwiceIff | internal/round/manager.go:224-257 | over every run an order's remainder is released at most twice, and twice if and only if both its refund at lock and its owner's cancellation got their release through |
| Holds.FirstReleaseGuards | internal/round/manager.go:224-257 | a refund of an order that is still open, and a cancellation of one the refund loop has not passed, is the first release of it |
| Holds.RefundThenCancel | internal/round/manager.go:238-257 | a refund, then a cancellation: two releases if and only if the refund's reply was lost and the other arrived |
| Holds.CancelThenRefund | internal/round/manager.go:224-257 | a cancellation after the listing, then the refund: two releases if and only if both arrived, with no fault at all |
| Holds.RefundTwiceReleasesOnce | internal/round/manager.go:229-257 | the refund loop alone never releases an order twice |
| Scenarios.ListedOrderIsReleasedTwice | internal/round/manager.go:224-257 | a run without a fault in which the owner cancels between listing and refund and the remainder is released twice |
| Holds.HoldIsRefundPlusFill | internal/round/manager.go:229-241 | every release of every run is within the lock and leaves the filled part, give or take one raw unit |
| Holds.MakerFillsAreAll | internal/round/matcher.go:93-144 | an order that was only ever maker is filled by exactly its maker fills, all at its own price |
| Holds.CostsAreTheHold | internal/round/matcher.go:200-205 | the exact costs of those fills add up to what the lock reserved for them |
| Holds.RestingOrderAccount | internal/round/manager.go:229-257 | for an order filled n times only as maker, lock less refund less truncated costs lies between 0 and n |
| Selling.HedgeMatchesFacts | internal/round/matcher.go:270-277 | every fill of a sale is against a resting order of the side sold, at minPrice or better (1 - minPrice for NO), for min(size, that liquidity) in all |
| Selling.HoldingsBeforeNetting | internal/round/matcher.go:276-282 | once the hedge is settled the other side has grown by the whole fill and the sold side has not shrunk |
| Selling.SellClosesWhatItFills | internal/round/matcher.go:261-290 | a sale in one go of at most what is held nets exactly its fill: the hedge side ends where it began, the sold side smaller by the fill less self-trades; its netting is covered if and only if the user owed no hedge shares |
| Selling.SaleAmongOthers | internal/round/matcher.go:261-290 | with anything at all going on between check, submission and netting, except another netting of the user, a sale fills what the book offered, and neither side ends below what the check saw, less the fill on the sold side |
| Selling.NettingKeepsExposure | internal/repo/repo.go:485-492 | netting any amount keeps each user's YES minus NO and the balance of the two sides, and leaves no debt if and only if both rows cover it |
| Selling.OverlappingSalesOverdrawIff | internal/round/matcher.go:261-290 | of two sales that both checked the position before either netted, each for no more than is held, the user is out of debt afterwards if and only if the two fills together are no more than was held |
| Scenarios.OverlappingSalesOverdraw | internal/round/matcher.go:261-290 | a run without a fault in which one share is sold twice, after which a match of its seller for one share can never be recorded |
| Tables.MovementsAreThePool | internal/round/matcher.go:217-228 | when every movement the wallet service applied is one a match prescribes, their amounts over all users add up to exactly the raw pool |
| Tables.PlannedInFull | internal/round/matcher.go:217-228 | each movement of a match in full: whom it debits or pays on for, and the cost and fee at their rates, truncated to 1e-6 |
| Tables.StoredFillIs | internal/repo/repo.go:401-407 | a fill row names the match's maker and taker orders, price and size, and its fees are those charged to within half of the last of 18 decimals |
| Tables.Backend.CreditIdempotent | internal/backendclient/backendclient.go:145-153 | a keyed credit is applied unless its key was seen or it never arrived |
| Tables.Backend.SettleFeeIdempotent | internal/backendclient/backendclient.go:174-178 | a keyed fee likewise |
| Tables.Backend.Lock | internal/backendclient/backendclient.go:120-125 | a lock raises that user's hold if it arrives, and no other |
| Tables.Backend.Unlock | internal/backendclient/backendclient.go:127-132 | an unlock lowers it if it arrives |
| Tables.Repo.CreateOrder | internal/repo/repo.go:228-236 | a new open row with nothing filled, if price and size pass the table's checks |
| Tables.Repo.FillOrder | internal/repo/repo.go:321-328 | adds to one row's fill and sets its status, and changes nothing else |
| Tables.Repo.CancelUserOrder | internal/repo/repo.go:332-344 | only an open order of that user flips, the remainder returned is its own, and no other row changes |
| Tables.Repo.CloseRefundedOrder | internal/repo/repo.go:353-359 | an order is closed only if still open |
| Tables.Repo.CreatePendingFill | internal/repo/repo.go:543-552 | a durable row under a fresh id |
| Tables.Repo.DeletePendingFill | internal/repo/repo.go:554-559 | that row alone goes, if the statement took effect |
| Tables.Repo.UpsertPosition | internal/repo/repo.go:413-423 | the table becomes the upsert of the old one, average included; it fails, changing nothing, exactly at a zero divisor or an average too large for its column |
| Tables.Repo.CreateFill | internal/repo/repo.go:401-407 | one fill row with the amounts of its match, fees rounded to the column |
| Tables.Repo.NetPositions | internal/repo/repo.go:485-492 | the loop over the user's rows is the netting of the old table |
| Matching.Loop.Takes | internal/round/matcher.go:115-143 | one fill of the loop keeps: takes so far plus the sweep of the rest of the book are the whole sweep, and the table shows the takes |
| Matching.Loop.Ends | internal/round/matcher.go:94-155 | when the loop stops, the table and the pending rows are those of the closed-form placement |
| Matching.Matcher.CostsOf | internal/round/matcher.go:198-208 | what each side pays in its own terms, swapped for a NO maker, and fees of 0.00015 and 0.00045 of it |
| Matching.Matcher.SendDebit | internal/round/matcher.go:217-222 | a debit is a step of the machine and the movement applied is the planned one |
| Matching.Matcher.SendFee | internal/round/matcher.go:223-228 | a fee likewise |
| Matching.Matcher.WritePositions | internal/round/matcher.go:230-244 | both positions, at each side's own price, and the fill row, or nothing if either update fails |
| Matching.Matcher.CommitFill | internal/repo/repo.go:523-534 | the transaction commits all of that or none of it |
| Matching.Matcher.RecordFill | internal/round/matcher.go:234-247 | as one step of the machine |
| Matching.Matcher.EraseRow | internal/round/matcher.go:248 | the delete as one step of the machine |
| Matching.Matcher.SettleFillByPlan | internal/round/matcher.go:197-249 | whatever fails, what happened is the plan cut short at that step, in plan order; success is exactly one undisturbed call whose position transaction was taken, after which both debits and both fees are in, in full |
| Matching.Matcher.SettlePending | internal/round/matcher.go:168-180 | rows are settled in order up to the first failure, whose events are given |
| Matching.Matcher.MatchOne | internal/round/matcher.go:115-143 | one pending row and the maker's new fill and status, nothing else |
| Matching.Matcher.SweepBook | internal/round/matcher.go:93-144 | the mutating loop over the book ends in the closed-form placement |
| Matching.Matcher.MatchIncoming | internal/round/matcher.go:88-157 | the table becomes the closed-form placement and the pending rows are its matches |
| Matching.Matcher.HoldAndInsert | internal/round/matcher.go:54-72 | the hold rises by the truncated cost if the order is placed; a failed insert whose unlock arrives nets to zero; no other user's hold moves |
| Matching.Matcher.PlaceOrder | internal/round/matcher.go:53-182 | placing is one submission followed by settlement calls in order, complete or cut short at the first failure |
| Matching.Matcher.CancelOrder | internal/round/matcher.go:293-303 | only an open order of the caller flips, and its remainder's lock is released only after the flip was heard of |
| Matching.Matcher.Hedge | internal/round/matcher.go:270-280 | however it ends it is a run of the machine: nothing, the submission with its settlement calls cut short at one, or exactly the hedge run, which can then be netted |
| Matching.Matcher.Sell | internal/round/matcher.go:261-290 | refuses exactly when there is no such position or it is too small; otherwise it is such a hedge, or the hedge run with or without its netting, or the whole sale run with the fill the book's liquidity gives |
| Matching.BackendCoversThePayout | internal/round/manager.go:356 | of the tables and the wallet service themselves: crediting a side costs at most 2n - 1 raw units more than the applied movements took from users, plus the side's debts |
| Sweeper.Manager.ReconcilePendingFills | internal/round/reconcile.go:22-41 | the sweep is a run of the machine, and when nothing fails it erases exactly the stale rows and records each once |
| Sweeper.Manager.RefundOne | internal/round/manager.go:229-257 | the release is for the listed remainder; the order is closed only after it was acknowledged and only if still open, as cancelled if nothing of it filled and as filled otherwise |
| Sweeper.Manager.LockAndRefund | internal/round/manager.go:214-258 | it stops at a lock or a listing it does not hear of; every user's hold falls by exactly the recorded releases; undisturbed, each open order is released once and closed, cancelled if nothing of it filled and filled otherwise, and no other order changes |
| Sweeper.Manager.PayOne | internal/round/manager.go:323-361 | one turn of the payout loop: skip, count as paid, or mark and then credit, and a credit only to the owner of a row of the side that won, for its shares |
| Sweeper.Manager.SettleWindow | internal/round/manager.go:305-368 | one settlement pass is a run of the payout machine; whatever fails it credits only what is due and records YES exactly if the price is at or above the target; undisturbed every holder of that side is credited once and the record totals their shares |
| Payout.PutKeepsPayout | internal/round/manager.go:305-368 | what a pass may do to the tables without breaking the payout invariant |
| Payout.StepKeepsPayout | internal/round/manager.go:305-368 | every step, trading underneath included, keeps it |
| Payout.MarketIsReachable | internal/round/manager.go:305-368 | settlement never touches the money path: its state stays one a run of trading reaches, so all results about those hold during payout |
| Payout.PaidAtMostOnce | internal/round/manager.go:306-361 | over every interleaving a position is credited at most once, only if it is a YES position and the price at or above the target or NO and below, only marked paid, only after the window left locked |
| Payout.CreditsAreOwed | internal/round/manager.go:352-356 | every credit of every run goes to the row's owner, on the side that won, for the listed shares truncated to 1e-6 |
| Payout.CreditFollowsMark | internal/round/manager.go:338-356 | a turn of the loop goes on to credit if and only if it heard that it marked a winner nobody had marked |
| Payout.FlipsIff | internal/repo/repo.go:72-85 | the window is resolved at a pass's price if and only if its flip reaches it while locked, and the pass goes on if and only if it also hears so |
| Payout.CreditCountsIff | internal/round/manager.go:356-360 | a credit is made once its request arrived and counted if and only if the reply came |
| Payout.RecordedWasCredited | internal/round/manager.go:322-368 | in every run the recorded total never exceeds the shares credited |
| Payout.OneSettlement | internal/round/manager.go:306-309 | a window gets at most one settlement record, naming YES if and only if its resolution price is at or above the target |
| Payout.ResolutionIsFinal | internal/repo/repo.go:72-85 | a recorded resolution price never changes |
| Payout.NothingIsEverResumed | internal/round/manager.go:327-351 | no pass ever finds a position already paid, listed or marked |
| Payout.NeverMoreThanListed | internal/round/manager.go:317-361 | all credits together never exceed the truncated holdings of the winners listed |
| Payout.NobodyResumes | internal/round/manager.go:281-320 | once the pass that settled the window is gone, no position is marked or credited and no record written, ever |
| Payout.UndisturbedPayout | internal/round/manager.go:322-366 | an undisturbed walk counts every winning share and credits each truncated |
| Payout.WalkCreditsEachOnce | internal/round/manager.go:322-366 | it credits a row once if it holds shares of the side the price decides, and otherwise not at all |
| Payout.TotalPaidIsOutcomeIndependentIff | internal/round/manager.go:322-366 | the recorded total is the recorded fills less netted shares plus the winning side's debts, so it is the same whoever wins if and only if both sides are equally in debt |
| Payout.PayoutComesFromThePool | internal/round/manager.go:352-356 | in every state with no match written twice, whatever is pending, an undisturbed payout costs at most 2n - 1 raw units more than the pool holds, n the recorded fills, plus the side's debts |
| Payout.CreditsComeFromThePool | internal/round/manager.go:317-361 | over every run of passes and trading, all that is ever credited was in the pool when the settling pass listed the positions, to within that bound |
| Commitment.DrawsCoverTheRange | internal/round/commitreveal.go:20-50 | the draws give exactly the offsets of 5 to 15 or 15 to 40 basis points, of either sign |
| Commitment.DrawsAreDistinct | internal/round/commitreveal.go:34-50 | each offset by one number and one sign bit only |
| Commitment.PreImageLooksLikeThis | internal/round/commitreveal.go:62-66 | -12 and "af0" are committed to as "-12:af0" |
| Commitment.ReadBackPreImage | internal/round/commitreveal.go:62-66 | the hashed text can be read back to the offset and the salt, for every integer and every string |
| Commitment.PreImageIsInjective | internal/round/commitreveal.go:62-66 | two commitments have the same text if and only if offset and salt agree |
| Commitment.OnlyTheCommittedPairVerifies | internal/round/commitreveal.go:84-89 | under an injective hash a commitment verifies for its own pair and for no other |
| Commitment.TargetIsOffTheOpening | internal/round/manager.go:197 | the exact target is positive, never the opening price, on the side of the offset's sign and at exactly its distance |
| Commitment.StoredTargetIsOffTheOpeningIff | internal/db/db.go:64-65 | the stored target is positive, and differs from the opening price if and only if half a stored digit does not swallow the distance, as at every price above 1e-15 |
| Commitment.StoredTargetIsExactIff | internal/db/db.go:64-65 | the stored target is within half of its last digit of the exact one, and equal if and only if the distance is a whole number of that digit |
| Rounds.Read | internal/index/index.go:101-125 | an entry is fresh if and only if its price is positive and its age within the allowed one, five seconds if none is set; one from the future is fresh |
| Rounds.OpensIff | internal/round/manager.go:183-201 | a committed round opens if and only if its start has come, the statement takes effect, and the price is fresh or, five seconds after the commit, positive; it opens at that price |
| Rounds.LocksIff | internal/round/manager.go:209-217 | a trading round locks if and only if its end has come and the statement takes effect |
| Rounds.SettlesIff | internal/round/manager.go:287-311 | a locked round settles if and only if the statement takes effect and the price is fresh or, two minutes after its end, positive |
| Rounds.StartCommitsIff | internal/round/manager.go:133-167 | a start commits a round from now, with its drawn offset, sealed text and length, if and only if the stream has none unsettled, the draw works and the insert takes effect |
| Rounds.RollCommitsFromTheEnd | internal/round/manager.go:209-264 | a roll-over that goes through commits the next round of the stream from the end of the one it locks |
| Rounds.CreateKeepsInv | internal/round/manager.go:150-167 | a new round placed after everything in its stream keeps the tiling |
| Rounds.LockKeepsInv | internal/repo/repo.go:67-70 | after a lock nothing in the stream is live and the locked round ends last |
| Rounds.EventKeepsInv | internal/round/manager.go:105-371 | every event keeps the round invariant |
| Rounds.RoundsTileTheStream | internal/round/manager.go:209-267 | in every run a stream's rounds last five or fifteen minutes and never overlap, at most one is committed or open, and it is the newest |
| Rounds.RoundsOnlyProgress | internal/repo/repo.go:51-85 | status only moves forward, and what was fixed at commit and at reveal never changes |
| Rounds.EveryRoundVerifies | internal/round/manager.go:150-205 | every round of every run verifies for its own offset and salt only, its offset is in range, and its stored target is positive and off the opening price under exactly that condition |
| Rounds.RollKeepsTheStreamGoingIff | internal/round/manager.go:215-264 | after a lock that took effect the stream goes on if and only if the lock was heard of, the listing worked, the draw worked and the insert took effect |
| Rounds.StoppedStreamsStayStopped | internal/round/manager.go:209-267 | a stream without a live round stays without one until a start |
| Rounds.StartRevivesIff | internal/round/manager.go:133-143 | a start revives it if and only if all its rounds are settled |
| Ticks.RollLeavesSuccessor | internal/round/manager.go:260-264 | a rolled round leaves a committed one that starts at its end |
| Ticks.TickRollsOver | internal/round/manager.go:105-125 | a healthy tick keeps the one live round of every stream, or settles it and puts exactly one in its place that starts at its end |
| Ticks.CatchUp | internal/round/manager.go:105-125 | n healthy ticks at one clock move a late stream on by min(n, lag) lengths, each stream on its own |
| Ticks.CaughtUpIff | internal/round/manager.go:105-125 | a stream is current if and only if floor((now - end) / length) + 1 ticks have passed |
| Broadcast.AnnouncementsAreRecent | internal/round/manager.go:378-400 | whatever was lost, an announced round exists, its stream, target and end are right, and it is open or was locked less than two minutes ago |
| Broadcast.AnnouncedTargetIsClose | internal/round/manager.go:197-204 | an announced target is the exact one up to half of the last stored digit |
| Broadcast.ReportedLocksMakeTruthfulFeeds | internal/round/manager.go:214-220 | when no lock goes unreported every announced round is open in the table |
| Broadcast.LockSilencesIff | internal/round/manager.go:214-220 | a lock silences its stream if and only if it was heard of and the cache write took effect |
| Broadcast.LateSettlementHidesTheNextRound | internal/round/manager.go:310-315 | a settlement after the next reveal leaves that round trading and, if that round was announced, silences it if and only if the settlement was heard of and the cache write took effect |
| Broadcast.SilencedIff | internal/round/manager.go:378-400 | an announced trading round stays announced under every step but its entry's expiry, its own reported lock, and a reported settlement of an earlier round of its stream |
| Broadcast.FaultFreeRunHidesTheNextRound | internal/round/manager.go:310-315 | a run whose every statement and cache write takes effect, with one tick without a price, in which the next round is announced and then silenced by the settlement |
| Keeping.Keeper.RefreshCache | internal/round/manager.go:62-73 | a best-effort write of the row as it is now |
| Keeping.Keeper.OpenOne | internal/round/manager.go:183-205 | one reveal, at a fresh price or a stale positive one after the grace period |
| Keeping.Keeper.OpenDueCommits | internal/round/manager.go:178-207 | the loop is a run of the machine, undisturbed the open phase of a tick |
| Keeping.Keeper.CommitNextWindow | internal/round/manager.go:150-167 | a committed round with a drawn offset, its sealed text and the right end |
| Keeping.Keeper.RollOne | internal/round/manager.go:214-264 | lock, report, and commit the next round from this one's end unless something fails on the way |
| Keeping.Keeper.LockDueWindows | internal/round/manager.go:209-267 | the loop is a run of the machine, undisturbed the roll-over phase of a tick |
| Keeping.Keeper.SettleOne | internal/round/manager.go:286-315 | one settlement, at a fresh price or a stale positive one after the deadline |
| Keeping.Keeper.SettleLockedWindows | internal/round/manager.go:281-315 | the loop is a run of the machine, undisturbed the settle phase of a tick |
| Keeping.Keeper.Tick | internal/round/manager.go:105-125 | the three steps in order; undisturbed exactly the healthy tick |
| Keeping.Keeper.EnsureActiveWindow | internal/round/manager.go:133-143 | reports the newest unsettled round or commits one; success leaves an unsettled round |
| Keeping.Keeper.Start | internal/round/manager.go:77-84 | a start that succeeds leaves every one of the six streams with an unsettled round |
| RateLimit.IdleIsFull | internal/api/ratelimit.go:47-62 | an address idle for ten minutes has the same credit as a new one |
| RateLimit.AdmissionsAreBounded | internal/api/ratelimit.go:79-85 | any stretch of t seconds admits at most 40 + 20 t requests of an address |
| RateLimit.BurstIsAdmitted | internal/api/ratelimit.go:79-85 | of n simultaneous first requests exactly min(n, 40) are admitted |
| RateLimit.SteadyRequestsAreAdmitted | internal/api/ratelimit.go:79-85 | a request 50 milliseconds or more after the last one of its address is admitted |
| RateLimit.LimiterStore.Allow | internal/api/ratelimit.go:34-45 | the answer depends on that address's own requests only, whatever was reaped in between |
| RateLimit.LimiterStore.Reap | internal/api/ratelimit.go:49-62 | forgets exactly the addresses idle for ten minutes |
| Pricing.ClampNeverBinds | internal/round/pricing.go:73-79 | the price stays within 0.02 and 0.98, so the clamp changes nothing |
| Pricing.PriceInFull | internal/round/pricing.go:33-73 | the formula with its volatility of 0.0015 for five minutes and 0.004125 for fifteen |
| Pricing.LastUncertainty | internal/round/pricing.go:57-60 | at the very end the uncertainty is one millionth |
| Pricing.RisesWithTheMarket | internal/round/pricing.go:69-73 | a higher market price never lowers the YES price |
| Pricing.SharpensWithTime | internal/round/pricing.go:49-73 | as time runs out the price moves away from one half, on the side the market price is on |

## Left out

- HTTP handlers, JWT, CORS, the WebSocket hub, configuration, Redis and Postgres connections, JSON: plumbing around the modelled calls.
- The wallet service itself: only keyed deduplication and lock counters are modelled. Whether a hold or a balance covers a debit is its business, and no result here claims that a taker's cost or any fee is covered by a lock.
- SHA-256 and the random source: an injective function and arbitrary draws within range.
- Placements whose insert succeeds but whose matching transaction rolls back, inserts whose reply is lost, concurrent placements in one window, and orders placed across the lock.
- Payout of shares written after the payout listing: at most once is proved, eventually is not, and `Payout.NobodyResumes` shows why it cannot be.
- Market.RunsKeepInv: the tables of one window; several windows share no rows, so a run of each is a run of its own machine.
- Sweeper.Manager.ReconcilePendingFills: takes the list of stale rows; that a row is left alone for its first twelve seconds is not modelled, and no result needs it.
- Market.NetKeepsPositions: the statement would also act on a user with a single row; its one caller, a sale whose hedge filled, always finds both (`Matching.Matcher.Hedge`).
- Sweeper.Manager.SettleWindow: takes the price that passed the freshness guard; the guard itself is in Keeping.
- Keeping.Keeper.RollOne: the listing and the refund loop are Sweeper.Manager.LockAndRefund and are represented here by whether they let it go on.
- Keeping.Keeper.SettleLockedWindows: the payout of a settled window is Sweeper.Manager.SettleWindow and Payout.
- Keeping.Keeper.Tick: the reconciliation sweep is Sweeper.Manager.ReconcilePendingFills, and what is broadcast is Broadcast.
- Keeping.Keeper.LockDueWindows: the refund loop inside it is Sweeper.Manager.LockAndRefund and is represented here by whether it went on.
- Pricing.ClampNeverBinds: over reals and before the rounding to 4 decimals; floating point is not modelled.
- RateLimit.LimiterStore.Allow: the bucket of golang.org/x/time/rate is not part of the repository and is modelled by its documented behaviour, with the lookup and the answer at one instant.
- Retry counters, error texts, timestamps other than those of rounds, the realized column, EnsureUser's effect, and the price history are not modelled.
- Completeness of the live feed: the cache entry expires after two minutes and is written only on state changes, so rounds go unannounced for most of their life; only soundness is claimed.
