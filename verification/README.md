# QuantSim: a verified model of its core

QuantSim is a paper-trading platform of small services. A **trading engine** keeps each account's balance, positions,
orders and trades in Postgres. A separate **insights** service knows none of that: it rebuilds an account's history from
its trade log and stored daily closes, checks the result against the live account, and reports risk, benchmarks and
behaviour. A **narrative** layer lets a language model phrase that report without writing a single figure. A
**backtesting** service runs three indicator strategies over aligned bars with one shared pool of capital. A **gateway**
counts requests and failed logins in memory.

This project models those parts in Dafny and proves what holds of every input, every run and every interleaving.
`dafny verify dfyconfig.toml` checks all of it.

## How the pieces fit

| files | what they model |
|---|---|
| `Numeric`, `Market`, `Ordering`, `Sums`, `Text`, `Wrappers` | money stored to four decimals, symbols, days and bars, sorted strings, sums over sets of keys |
| `Orders`, `Ledger`, `Transactions`, `FilledOrders`, `Pnl` | what becomes an order; one order in one transaction with a failure possible at every statement; any number of transactions interleaved; profit and loss over whole runs |
| `Reconstruct`, `Reconcile`, `AccountReconciles`, `FaultyLogs` | the history rebuilt from the log, the guard against the account, exactly when the two services agree, and exactly which faulty logs slip through |
| `Calendar`, `Sections`, `RiskReport`, `PortfolioMath`, `Statistics`, `Insights`, `Cache` | the report pipeline, its figures, and the cached report between fills and requests |
| `EndToEnd` | from racing orders to a finished report |
| `Indicators`, `Strategies`, `Simulator`, `Align` | the backtest, loop by loop |
| `TradingRules`, `SharedPool` | which way the strategies trade, and who gets how much of the pool |
| `NoLookahead`, `EarlierEnd`, `Conservation`, `SingleSymbol`, `Mirror` | what holds of every backtest |
| `Limits`, `Backoff`, `BackoffBounds`, `Login`, `LoginCounts`, `Window` | the two limiters, alone and under concurrent requests |
| `Format`, `Values`, `Narrative`, `Drafts`, `Placeholders`, `TokenValues` | from a report's figures to a sentence, through a model that may answer anything |

Code that works step by step is a method with its loops and, where the source keeps state, a class or an array updated
in place; each is proved equal to a specification that does not mention its steps. Protocols are state machines: a run is
any sequence of events, and an event that is not enabled does nothing, so theorems about runs cover every interleaving.

## Conventions

- Prices, cash, equity and indicators are `real`; stored quantities are whole ticks of 1/10000 share. A `Column` says how
  a value is stored, exactly or rounded to four decimals, so the exact law and its drift under storage are one theorem.
- Prices are positive and order quantities at least one tick, which the price client and `validateOrder` guarantee.
- Times are nanoseconds and days UTC day numbers. Clock readings, order ids and the answers of other services arrive as
  parameters; a run of a limiter lists its operations in lock order with the reading each had taken.
- Strings are ASCII, one character per byte.

## What came out

- The guard between the two services accepts an honest account **if and only if** the cash drift is within a cent and no
  position is exactly one tick. At four-decimal prices drift is at most half a tick per fill, so two hundred fills are
  always safe and two hundred and one are not: the bound is met. At finer prices it is at most another half tick per
  share traded.
- A position of exactly one tick is refused although nothing is wrong: the served side drops it, the derived side keeps it.
- A cached report can miss a fill whose delete came before the request, in exactly one way: its build read the log before
  the fill committed and stored itself after the delete.
- A log with one trade dropped or repeated is accepted **if and only if** that trade is of a single tick, is worth no more
  than a cent beside the drift there was, and leaves its symbol held on both sides or on neither; a flipped side never is.
- A fill that commits between a build's two reads makes the guard withhold an honest report, and that answer is cached,
  **unless** it moved the balance by no more than a cent and no holding out of the guard's sight; then the report is full
  and its account has a fill its log lacks.
- A count of failed logins is its wrong passwords since its last clear plus the requests waiting that were let in since,
  and never more. It falls short **exactly when** a request let in before a clear settles after it: a wrong password is
  then not counted, and an error takes back a failure that was not its own.
- Sharding and sweeping the request counters change no answer as long as no request asks about a longer window than its
  key's entry was opened with; a sweep shows exactly where one does, inside that window.
- Comparing brace counts in a draft rejects nothing the later check would accept.

Where the code and its own comments differ, the model follows the code. The comments on the token pattern
(services/ai-insights/internal/narrative/validate.go:52-54 and 127-128) say a nested `{a{b}` is read as one unknown token,
and that its brace counts match; the pattern reads the token `b`, and the counts are two and one, so the draft is rejected
for them before any token is looked up. The comment on the report cache
(services/ai-insights/internal/service/insights.go:61-69) says a fill does not invalidate it; the trading engine deletes
the entry on every fill. The comment on the tolerances
(services/ai-insights/internal/service/reconcile.go:11-17) says any genuine divergence, a dropped trade among them, is
orders of magnitude larger than they are, and that float64 accumulation never trips them. A dropped trade of one
tick need not be; and what does trip them is not accumulation but the ledger's own rounding of the balance on every fill.

## Model

| member | source | states |
|---|---|---|
| `Ledger.PostgresTradingStore.ExecuteOrder` | services/trading-engine/internal/store/postgres_trading_store.go:80-109 | One order in one transaction, cut off after any number of statements: the committed rows are exactly the order's whole effect or exactly what they were, the outcome returned says which, an unknown account and an unknown side change nothing, and eight statements always suffice |
| `Ledger.PostgresTradingStore.ExecuteBuy` | services/trading-engine/internal/store/postgres_trading_store.go:112-162 | The buy path, statement by statement: a committed run is the buy's effect (fill, or a rejected order row and nothing else), a failed one leaves the rows alone |
| `Ledger.PostgresTradingStore.ExecuteSell` | services/trading-engine/internal/store/postgres_trading_store.go:170-223 | The sell path likewise: cover is checked against the held quantity, the basis is written back unchanged |
| `Ledger.PostgresTradingStore.RejectWithin` | services/trading-engine/internal/store/postgres_trading_store.go:227-235 | A business rejection commits: one rejected order row, nothing else |
| `Ledger.PostgresTradingStore.RecordRejectedOrder` | services/trading-engine/internal/store/postgres_trading_store.go:243-255 | An order rejected before any transaction adds one order row and touches no other table |
| `Ledger.Tx.UpsertPosition` | services/trading-engine/internal/store/postgres_trading_store.go:396-407 | The position row becomes the given quantity at the basis as its column stores it, or stays when the statement fails |
| `Ledger.Tx.UpdateBalance` | services/trading-engine/internal/store/postgres_trading_store.go:419-428 | The stored balance, rounded to the column's four places, is what is returned and what the row holds |
| `Ledger.ExecuteFrame` | services/trading-engine/internal/store/postgres_trading_store.go:80-235 | An order fills exactly when the account can afford or cover it; a fill adds one order and one trade that tell its id, symbol, side, quantity, stored price and time, and moves one position by its signed quantity; a refusal adds one rejected order row with its reason and touches nothing else |
| `Ledger.ExecuteKeepsNonnegative` | services/trading-engine/internal/store/postgres_trading_store.go:112-223 | No order, filled or refused, makes the balance, a quantity or a basis negative, storage rounding included |
| `Ledger.ExecuteKeepsTradesAreFills` | services/trading-engine/internal/store/postgres_trading_store.go:112-235 | After every order the trades are the filled orders in order, each recording its own order |
| `Ledger.OneTradePerFill` | services/trading-engine/internal/store/postgres_trading_store.go:112-235 | Every filled order has exactly one trade, every trade is some filled order's, no rejected order has any |
| `FilledOrders.LogTellsTheFills` | services/trading-engine/internal/store/postgres_trading_store.go:370-394 | After every run the trade log is exactly the filled orders, in order, each with its id, symbol, side, quantity, stored price and time |
| `FilledOrders.ConcurrentLogTellsTheFills` | services/trading-engine/internal/store/postgres_trading_store.go:52-109 | And so it is for an account many interleaved transactions raced on, with its committed orders in the order they locked it |
| `Ledger.SnapQuantity` | services/trading-engine/internal/service/trading.go:402-413 | A quantity is refused outside one tick to a billion shares; otherwise it moves by at most half a tick, is at least one tick, and is unchanged when already whole |
| `Orders.ValidateOrder` | services/trading-engine/internal/service/trading.go:394-414 | A request becomes an order if and only if its trimmed symbol has one to sixteen characters, its side is known and its quantity is in bounds; the order is for the normal spelling and the nearest tick |
| `Orders.TrimKeepsTheMiddle` | services/trading-engine/internal/service/trading.go:394-395 | Trimming takes off space at either end and nothing else |
| `Orders.UpperKeepsTheLetter` | services/trading-engine/internal/service/trading.go:394-395 | Upper case moves the twenty-six letters onto capitals by one distance and nothing else |
| `Orders.SpellingsAreOneSymbol` | services/trading-engine/internal/service/trading.go:385-395 | Spellings that differ in case and in the space around them are one symbol: a holding never splits over two rows |
| `Orders.NormalizedIsNormal` | services/trading-engine/internal/service/trading.go:394-395 | Normalizing a normal spelling changes nothing |
| `Numeric.RoundHalfAway` | services/trading-engine/internal/service/trading.go:412 | The nearest integer, exact halves away from zero |
| `Numeric.StoredFixesWholeTicks` | services/trading-engine/internal/store/postgres_trading_store.go:409-418 | A four-decimal column keeps a value unchanged if and only if it has at most four decimals |
| `Numeric.StoredIdempotent` | services/trading-engine/internal/store/postgres_trading_store.go:409-428 | Storing what was stored changes nothing |
| `Transactions.StatementsAreTheOrder` | services/trading-engine/internal/store/postgres_trading_store.go:112-223 | What a transaction has drafted when it is ready to commit, applied to the rows as they are then, is exactly the whole order run on them |
| `Transactions.Serializable` | services/trading-engine/internal/store/postgres_trading_store.go:52-109 | In every interleaving of statements, locks, commits and rollbacks, the committed state is the committed orders run one by one, and on every account that order is the order in which its row was locked |
| `Transactions.EveryRunIsSafe` | services/trading-engine/internal/store/postgres_trading_store.go:52-235 | From accounts opened without debt or history, every reachable state has no negative balance or position, and filled orders and trades correspond one to one, with every order id its own |
| `Transactions.OnTrackIgnoresOrders` | services/trading-engine/internal/store/postgres_trading_store.go:237-255 | A rejected order recorded without the lock leaves a lock holder's reads valid: the orders table is the only one it touches |
| `Pnl.WeightedAvgCostConserves` | services/trading-engine/internal/service/money.go:18-24 | The whole position at its new basis costs what its parts cost |
| `Pnl.ProfitIsConserved` | services/trading-engine/internal/service/money.go:18-35 | Over every run cash plus cost basis is the opening balance plus realized P/L, exactly in exact arithmetic and within a stated rounding slack under four-decimal storage |
| `Pnl.ExactRunsHaveNoSlack` | services/trading-engine/internal/service/money.go:18-35 | In exact arithmetic that slack is zero over every run |
| `Pnl.BasisAmongPricesPaid` | services/trading-engine/internal/service/money.go:18-24 | Over every run an open position's basis lies between the lowest and the highest price paid since it was last flat, as stored; sales never move it |
| `Pnl.PriceAll` | services/trading-engine/internal/service/trading.go:311-352 | Whatever order the concurrent lookups finish in, each holding is priced on its own: a failed quote leaves that one unpriced at zero P/L and every other one as it was |
| `Pnl.Portfolio` | services/trading-engine/internal/service/trading.go:238-263 | Total equity is the balance plus every open position at its quote or at cost, total unrealized P/L is what the quoted ones stand above their cost, and the two differ by cash plus cost basis whatever could be priced |
| `Pnl.QuoteMovesTotals` | services/trading-engine/internal/service/trading.go:249-263 | Raising one quote raises both totals by the raise times the shares held, and nothing where none are |
| `Pnl.PortfolioOfRun` | services/trading-engine/internal/service/trading.go:238-263 | On a quiescent account total equity is the opening balance plus realized plus unrealized P/L, each total as it is of the account's rows: exactly in exact arithmetic, within the run's slack under four-decimal storage |
| `Reconstruct.ApplyTradeHolds` | services/ai-insights/internal/service/reconstruct.go:187-203 | Folding one trade keeps cash at the log's flow and a key present exactly for a nonzero signed sum: the dust rule drops a holding only when its ticks cancel |
| `Reconstruct.ClosesBySymbolAndDay` | services/ai-insights/internal/service/reconstruct.go:211-228 | Per symbol and day the close of the day's latest bar, the later in the list among equals |
| `Reconstruct.DayCloseIsLatest` | services/ai-insights/internal/service/reconstruct.go:211-228 | That bar is one of the day's, none of the day's is newer, and there is one whenever the day has any |
| `Reconstruct.MarkToMarket` | services/ai-insights/internal/service/reconstruct.go:125-140 | Cash plus every holding at its close, or the first holding without one |
| `Reconstruct.EquityIsCashAndShares` | services/ai-insights/internal/service/reconstruct.go:100-148 | A point of the curve is the cash of the trades up to its date plus, over every symbol they touched, the shares they left at that date's close |
| `Reconstruct.Reconstruct` | services/ai-insights/internal/service/reconstruct.go:74-149 | The loop over an ascending calendar equals the date-by-date reading of the log: dates from the first trade on, cash and equity as of each, holdings as of the last, or the first gap |
| `Reconstruct.ReconstructFailsIff` | services/ai-insights/internal/service/reconstruct.go:74-149 | It fails if and only if on some calendar date from the first trade on a symbol held that day has no close that day, and the close it names is one of those |
| `Reconstruct.ReconstructionIgnoresOrder` | services/ai-insights/internal/service/reconstruct.go:79-99 | Permuting the log, within a day or across days, changes nothing |
| `Reconstruct.SortByDayPermutes` | services/ai-insights/internal/service/reconstruct.go:79-99 | Sorting by day keeps every trade the number of times it occurs |
| `Reconstruct.SumsIgnoreOrder` | services/ai-insights/internal/service/reconstruct.go:187-203 | Cash and every signed quantity of a log depend on its multiset of trades only |
| `Reconcile.ProjectPastCalendar` | services/ai-insights/internal/service/reconcile.go:134-149 | Rolls the last derived state through every trade dated after the last calendar date |
| `Reconcile.CompareHoldings` | services/ai-insights/internal/service/reconcile.go:99-117 | The first symbol, in order, missing on one side or more than a tick apart |
| `Reconcile.RefusalTells` | services/ai-insights/internal/service/reconcile.go:99-117 | A refusal over holdings names the first symbol in ascending order that does not agree, held on the side it says and not on the other, or on both more than a tick apart, with the quantities of each side |
| `Reconcile.CheckAgainstAccount` | services/ai-insights/internal/service/reconcile.go:75-119 | The guard with its early returns equals its verdict: nothing for an empty history, else cash first, then symbols in order |
| `Reconcile.VerdictIff` | services/ai-insights/internal/service/reconcile.go:75-119 | It accepts if and only if cash is within a cent and the same symbols are held, each within one tick |
| `Reconcile.CalendarIndependence` | services/ai-insights/internal/service/reconcile.go:134-149 | For any calendar that yields a curve, the projected state is the plain sums of the whole log, a key for each nonzero sum: no trade is lost to a skipped date or counted twice |
| `Reconcile.VerdictOnLog` | services/ai-insights/internal/service/reconcile.go:75-149 | So the guard compares the account with the sums of the log and nothing else |
| `Reconcile.AnyLogAcceptedIff` | services/ai-insights/internal/service/reconcile.go:75-149 | Any log at all is accepted against an account if and only if its cash is within a cent of the balance and every symbol is held on both sides or on neither, within a tick |
| `Reconcile.TwoTicksOffIsRefused` | services/ai-insights/internal/service/reconcile.go:75-149 | A log that puts any symbol two ticks or more from the truth is refused whatever its cash says |
| `Reconcile.DroppedTradeAcceptedIff` | services/ai-insights/internal/service/reconcile.go:56-58 | A log missing one trade is accepted if and only if the trade is of one tick, is worth no more than the tolerance leaves beside what cash was off by, was all that was held of its symbol or leaves more than a tick of it, and no other symbol is held at exactly one tick |
| `Reconcile.DuplicatedTradeAcceptedIff` | services/ai-insights/internal/service/reconcile.go:56-58 | A log repeating one trade, anywhere, likewise, with the cash the other way |
| `Reconcile.FlippedSideIsRefused` | services/ai-insights/internal/service/reconcile.go:56-58 | A log with one trade's side flipped, of any size, is refused |
| `Reconcile.WrongCashIsRefused` | services/ai-insights/internal/service/reconcile.go:81-85 | A history whose cash is more than a cent from the balance is refused for its cash |
| `AccountReconciles.PositionsStayNet` | services/trading-engine/internal/store/postgres_trading_store.go:112-223 | After every run, at any prices, each position is exactly the signed sum of the log's quantities |
| `AccountReconciles.DriftIsResidues` | services/trading-engine/internal/store/postgres_trading_store.go:409-428 | Drift, exactly: what the account opened with beyond what is taken for granted, plus, fill by fill, what storing the balance moved it by and what was charged beyond what the trade row says |
| `AccountReconciles.OrderDrift` | services/trading-engine/internal/store/postgres_trading_store.go:409-428 | A refusal drifts no cash; a fill drifts by at most half a tick plus what storing its price moved its proceeds by, which is nothing at four decimals and never more than half a tick per share |
| `AccountReconciles.RunDrift` | services/trading-engine/internal/store/postgres_trading_store.go:112-223 | Over every run of four-decimal prices the drift is at most half a tick per fill |
| `AccountReconciles.RunDriftAnyPrice` | services/trading-engine/internal/store/postgres_trading_store.go:112-223 | Over every run at any prices it is at most half a tick per fill plus half a tick per share traded |
| `AccountReconciles.GuardAcceptsIff` | services/ai-insights/internal/service/reconcile.go:75-149 | Over every run at any prices, whatever the account opened with, any order of the log and any calendar, a reconstructed history that is not empty is accepted if and only if the drift is within a cent and no position is exactly one tick; the drift is the opening difference plus the residues of the fills |
| `AccountReconciles.HonestAccountAccepted` | services/ai-insights/internal/service/reconcile.go:75-149 | An honest account of up to two hundred fills at four-decimal prices, or at any prices when its fills and the shares it traded come to two hundred together, is accepted if and only if no position is exactly one tick, or there is no history |
| `AccountReconciles.TwoHundredIsSharp` | services/trading-engine/internal/store/postgres_trading_store.go:409-428 | Every number of fills past two hundred can drift past the cent: buying one tick at half a dollar, stored away each time, is refused over any calendar |
| `AccountReconciles.HonestAccountsRefused` | services/ai-insights/internal/service/reconcile.go:87-97 | Two refusals of an honest account, its one-day history reconstructed from its own log: past two hundred such fills, and after the very first, whose drift is within the cent but which leaves exactly one tick held |
| `AccountReconciles.WrongStartingBalanceIsRefused` | services/ai-insights/internal/service/reconcile.go:56-58 | An account that opened with another balance than the reconstruction takes for granted is refused for its cash once the difference is more than a cent and the drift its fills allow |
| `AccountReconciles.ConcurrentAccountAccepted` | services/trading-engine/internal/store/postgres_trading_store.go:52-109 | The same for an account many interleaved transactions raced on, rolled back anywhere |
| `AccountReconciles.AccountReportsItsLog` | services/trading-engine/internal/store/postgres_trading_store.go:287-308 | After every run, at any prices, the positions served are those its trade log implies, bar those of at most one tick |
| `FaultyLogs.FaultyLogAcceptedIff` | services/ai-insights/internal/service/reconcile.go:56-58 | After every run, at any prices and over any calendar, a trade log with one trade dropped, duplicated or mis-signed is accepted if and only if the fault is unseen: one tick gone or repeated, cash still within a cent with it, its symbol still held at one tick or more (two for a dropped sell or a repeated buy), no other position of exactly one tick; a flipped side never is |
| `FaultyLogs.OneTickUnseenAndSeen` | services/ai-insights/internal/service/reconcile.go:56-58 | Both happen, reconstructed from the faulty log of an account accepted with its own: a dropped buy of one tick is accepted at a dollar and refused at three hundred |
| `Calendar.CalendarOf` | services/ai-insights/internal/service/calendar.go:42-79 | Exactly the days on which every symbol has a bar, strictly ascending; none for no symbols; several bars of one symbol on a day count once |
| `Calendar.CalendarUnique` | services/ai-insights/internal/service/calendar.go:20-41 | There is only one such sequence of days |
| `Insights.ReconstructionSymbols` | services/ai-insights/internal/service/insights.go:256-271 | Every symbol ever traded and both benchmarks, in ascending order |
| `Insights.FetchHistories` | services/ai-insights/internal/service/histories.go:27-57 | Whatever order the concurrent fetches finish in, the bars are every symbol's own, or the failure is that of the first failing symbol in symbol order |
| `Insights.BuyAndHold` | services/ai-insights/internal/service/benchmark.go:120-138 | The closes on exactly the given dates, or the first date without one; an opening close of zero is a missing one |
| `Insights.ComputeBenchmarking` | services/ai-insights/internal/service/benchmark.go:60-100 | Each benchmark's label, return and Sharpe ratio over the portfolio's own dates and difference from the portfolio's return, or the first missing close |
| `Insights.RowsAre` | services/ai-insights/internal/service/benchmark.go:76-94 | Each row is its own benchmark over its own closes, and its return and its excess come to the portfolio's return |
| `Insights.SearchDay` | services/ai-insights/internal/service/behavior.go:277-285 | Binary search finds how many dates of an ascending calendar come before a day |
| `Insights.PriorSessions` | services/ai-insights/internal/service/behavior.go:277-285 | The last two calendar dates strictly before the day, if there are two |
| `Insights.PanicSelling` | services/ai-insights/internal/service/behavior.go:170-249 | The loop's tally: a sale nobody can judge is in neither count, one at a profit is in the denominator only |
| `Insights.PanicFiresIff` | services/ai-insights/internal/service/behavior.go:230-248 | The rule fires if and only if there are three panic sales, or at least one and three in ten of the judgeable sales |
| `Insights.Overtrading` | services/ai-insights/internal/service/behavior.go:117-162 | The loops compute value traded over mean equity of the last thirty days and cite the trades behind it, or nothing where there is no such ratio |
| `Insights.OvertradingFiresIff` | services/ai-insights/internal/service/behavior.go:117-162 | On a curve always worth something the rule fires if and only if a trade is recent and the value traded is more than twice the mean equity of the same days; the ratio times that mean is the value traded, and the evidence exactly the recent trades, in order |
| `Insights.RecentIs` | services/ai-insights/internal/service/behavior.go:117-136 | Recent trades are those of the last thirty days, the as-of date among them |
| `Insights.RecentEquityIs` | services/ai-insights/internal/service/behavior.go:138-146 | And the equity they are held against is that of the curve's last points, less than thirty days old |
| `Insights.EvidenceIsPanic` | services/ai-insights/internal/service/behavior.go:170-249 | The trades cited are exactly, and in order, the log's sales at a loss, no later than the last date, whose symbol fell five percent or more across the two calendar dates before; the denominator is exactly the sales that have two such dates |
| `Insights.ProfileGrowsWithRisk` | services/ai-insights/internal/service/behavior.go:321-333 | A portfolio more volatile or more concentrated, and no less of either, is never banded as more cautious |
| `Insights.BuildInsights` | services/ai-insights/internal/service/insights.go:146-216 | The pipeline over the calendar of the fetched bars, with its early returns: nothing for no trades, a withheld report exactly when the guard refuses, otherwise every section with both behaviour findings and the risk profile, or the first missing close |
| `Insights.ReportNamesItsWindow` | services/ai-insights/internal/service/insights.go:204-216 | A full report starts on the earliest calendar date from the first trade on, is as of the latest, counts the dates between and every trade of the log |
| `Insights.NoMissingClose` | services/ai-insights/internal/service/insights.go:165-202 | As wired, with bars for the log's symbols and the benchmarks and no close of zero, no step ever misses a close, the report is withheld if and only if the guard refuses, and weights and cash come to a hundred percent |
| `Insights.ReconstructsWithoutGap` | services/ai-insights/internal/service/insights.go:165-174 | Reconstruction over the calendar of every symbol it needs never misses a close |
| `Insights.SectionsWithoutGap` | services/ai-insights/internal/service/insights.go:187-202 | Neither do the risk section, either benchmark, or any sale the panic rule judges |
| `EndToEnd.HonestAccountGetsItsReport` | services/ai-insights/internal/service/insights.go:146-216 | After any interleaving of orders with rollbacks, an account of at most two hundred four-decimal fills gets its full report if and only if no position is exactly one tick, or there is no history; with no trades it is told so |
| `EndToEnd.TornReadIff` | services/ai-insights/internal/service/insights.go:146-182 | A build that reads the log, and the account only some orders later, gives a full report if and only if there is no history, or the balance is still within a cent of the log's cash and every symbol's holding is nonzero before exactly when it is above one tick after, and then within a tick |
| `EndToEnd.TornReadServedAndWithheld` | services/ai-insights/internal/service/insights.go:146-182 | Both happen: one tick bought between the reads, at a dollar the report is full, at three hundred it is withheld |
| `Sections.ComputeRisk` | services/ai-insights/internal/service/risk.go:72-141 | Holdings valued at the last closes in symbol order, weighed and ranked, with the curve's drawdown and annualized volatility, or the first without a close |
| `RiskReport.PositionsAreHoldings` | services/ai-insights/internal/service/risk.go:84-112 | Every holding is listed once, with its own quantity, its value at the last close and a weight that times equity is that value in percent |
| `RiskReport.RiskFiguresAre` | services/ai-insights/internal/service/risk.go:101-138 | On a curve never below zero no pair declines deeper than the drawdown and some pair attains it; volatility is zero if and only if no two daily returns differ; the largest weight bounds every listed one and is one of them or zero; cash weighs what it is of equity |
| `RiskReport.ConcentrationIs` | services/ai-insights/internal/service/risk.go:153-163 | Concentration times the square of what is invested is the sum of the squared market values |
| `RiskReport.LargestComeFirst` | services/ai-insights/internal/service/risk.go:114-121 | The section lists the larger market value first, and equal ones in ascending order of symbol |
| `Sections.ConcentrationHHI` | services/ai-insights/internal/service/risk.go:153-163 | The sum of squared shares of the invested total; nothing for nothing invested |
| `Sections.WeightsSumToHundred` | services/ai-insights/internal/service/risk.go:103-133 | Position weights and the cash weight come to exactly one hundred percent of a nonzero equity |
| `Sections.RankedIsSorted` | services/ai-insights/internal/service/risk.go:114-121 | Positions come out largest first, symbols in order among equals, none lost and none added |
| `Sections.ConcentrationRange` | services/ai-insights/internal/service/risk.go:143-163 | Concentration lies between one over n and one, and is one for a single holding |
| `PortfolioMath.MaxDrawdownPct` | pkg/portfoliomath/portfoliomath.go:98-117 | The loop computes the running-peak drawdown of the curve |
| `PortfolioMath.OnePassFindsTheWorstPair` | pkg/portfoliomath/portfoliomath.go:95-117 | On a curve never below zero that is the deepest decline between any point and a later one, attained by some pair unless the curve is never worth anything, from zero to a hundred and less than a hundred on a positive curve |
| `PortfolioMath.NegativeCurvesDiffer` | pkg/portfoliomath/portfoliomath.go:98-117 | On a curve that goes below zero it is not: a concrete curve |
| `PortfolioMath.DailyReturns` | pkg/portfoliomath/portfoliomath.go:33-46 | One return per period whose opening value is not zero, in order |
| `PortfolioMath.TotalReturnIsCompounded` | services/ai-insights/internal/service/benchmark.go:146-151 | On a curve never worth nothing the total return is the compounded daily returns |
| `PortfolioMath.DrawdownIgnoresScale` | pkg/portfoliomath/portfoliomath.go:98-117 | Drawdown is unchanged by scaling the curve by a positive constant |
| `PortfolioMath.BenchmarkIgnoresShareCount` | services/ai-insights/internal/service/benchmark.go:106-114 | Total return, daily returns and drawdown of a benchmark do not depend on how many shares are held |
| `Statistics.Sharpe` | pkg/portfoliomath/portfoliomath.go:55-67 | The mean daily return over its population deviation, annualized; nothing for no returns or no deviation |
| `Statistics.Volatility` | services/ai-insights/internal/service/risk.go:134-138 | The population deviation of the daily returns, annualized, in percent; nothing for no returns |
| `Statistics.SteadyIff` | pkg/portfoliomath/portfoliomath.go:48-95 | For any root that is zero only at zero, volatility is zero if and only if no two daily returns differ, and the Sharpe ratio is then zero |
| `Statistics.VolatilitySquared` | pkg/portfoliomath/portfoliomath.go:80-95 | With a true square root, volatility squared times the number of daily returns is their squared deviations summed, over 252 days, in percent |
| `Statistics.DeviationIs` | pkg/portfoliomath/portfoliomath.go:69-95 | Those deviations sum to the sum of squares less the square of the mean for each return |
| `Statistics.SharpeTimesVolatility` | pkg/portfoliomath/portfoliomath.go:48-67 | The Sharpe ratio times the volatility is the mean daily return over 252 days, in percent: it has the sign of the mean |
| `Statistics.StatisticsIgnoreScale` | services/ai-insights/internal/service/benchmark.go:106-114 | Sharpe ratio and volatility do not depend on how many shares are held |
| `Cache.ReportsAreFresh` | services/trading-engine/internal/service/trading.go:107-149 | In every interleaving a report asked for after a fill's delete lacks the fill if and only if it comes from an entry whose build read the log before the fill committed and stored itself after the delete, served before its time to live is out |
| `Cache.OwnBuildsAreFresh` | services/ai-insights/internal/service/insights.go:112-136 | A request that computes its own report includes every fill whose delete came before it asked |
| `Cache.StaleForLessThanTTL` | services/ai-insights/internal/service/insights.go:112-136 | Whether or not a fill's delete succeeded, a report asked for after the fill committed lacks it exactly when its build read the log before, and then comes from an entry younger than its time to live |
| `Cache.EntryBuiltAcrossIsServed` | services/ai-insights/internal/service/insights.go:112-136 | The exception happens: an eight-step run serves such an entry |
| `Cache.TornIff` | services/ai-insights/internal/service/insights.go:146-163 | A served report's account has fills its log lacks if and only if one committed between the build's two reads; a request after such a fill's delete gets it only from an entry stored after that delete, before its time to live is out |
| `Cache.TornReportIsServed` | services/ai-insights/internal/service/insights.go:112-163 | That happens too: an eight-step run serves such a report from the cache |
| `Cache.RunKeepsInv` | services/ai-insights/internal/service/insights.go:112-170 | In every reachable state the cached entry was set after every delete so far and holds exactly the fills committed before its build read the log, and of the account exactly those committed before it read that |
| `Indicators.MovingAverages` | services/backtesting/internal/service/strategy.go:392-413 | The running sum gives, at every bar from the window's last on, the mean of the trailing window |
| `Indicators.EmaOf` | services/backtesting/internal/service/indicators.go:13-33 | At every bar from the seed on, the exponential average of the values so far, seeded with their plain mean |
| `Indicators.EmaBetween` | services/backtesting/internal/service/indicators.go:3-33 | An exponential average never leaves the range of the values it averages |
| `TradingRules.EmaTrailsHalfAPeriod` | services/backtesting/internal/service/indicators.go:3-33 | On a straight line the exponential average runs parallel to it, exactly half a period behind |
| `Indicators.WilderRsi` | services/backtesting/internal/service/indicators.go:52-84 | At every bar from the period on, the RSI of the closes so far under Wilder's smoothing |
| `TradingRules.SmoothedWeighsNewest` | services/backtesting/internal/service/indicators.go:52-84 | Histories that differ in their newest value by d have Wilder averages that differ by d over the period |
| `Indicators.RsiComplement` | services/backtesting/internal/service/indicators.go:86-101 | An RSI is between 0 and 100 in every degenerate case too, and exchanging gains and losses complements it |
| `TradingRules.RsiIsGainsShare` | services/backtesting/internal/service/indicators.go:86-101 | The RSI is the gains' share of all that moved, in percent |
| `Strategies.NewStrategy` | services/backtesting/internal/service/strategy.go:75-110 | Over all 64-bit parameters, a strategy is accepted if and only if its parameters are valid and its true warm-up is at most 500 bars: wrap-around lets nothing through |
| `Strategies.WarmupCheckAloneOverflows` | services/backtesting/internal/service/strategy.go:61-68 | Without the per-period bounds it would: the longest period wraps to a warm-up that passes |
| `Strategies.CrossoverSignals` | services/backtesting/internal/service/strategy.go:178-195 | A signal only where the two series change sides after the first comparable bar |
| `Strategies.RsiZoneExitSignals` | services/backtesting/internal/service/strategy.go:270-282 | A signal only on the bar that leaves a zone |
| `Strategies.GenerateSignals` | services/backtesting/internal/service/strategy.go:161-379 | For each of the three strategies every bar's signal is the decision on the history up to and including that bar, warm-up and short inputs included |
| `TradingRules.RsiSignalIff` | services/backtesting/internal/service/strategy.go:256-282 | The RSI strategy buys if and only if the bar is past the warm-up and its RSI comes up from at or below oversold to above it, and sells if and only if it comes down from at or above overbought to below it |
| `TradingRules.RsiTradesWithThePrice` | services/backtesting/internal/service/strategy.go:270-282 | So an RSI buy falls only on a bar that closes above the one before, and a sell only on one that closes below |
| `TradingRules.AveragesSignalIff` | services/backtesting/internal/service/strategy.go:161-195 | The moving-average strategy buys if and only if the short mean comes out above the long one on that bar, and sells if and only if it no longer is |
| `TradingRules.MacdSignalIff` | services/backtesting/internal/service/strategy.go:330-379 | The MACD strategy likewise, with the line and its own average |
| `TradingRules.FirstRiseBuys` | services/backtesting/internal/service/strategy.go:178-195 | Either buys on the first rise after a flat stretch of closes, from the bar after its warm-up on |
| `Simulator.SettleSells` | services/backtesting/internal/service/simulate_portfolio.go:61-78 | The sell loop over the arrays in place is the sells as values, in symbol order |
| `Simulator.FillBuys` | services/backtesting/internal/service/simulate_portfolio.go:87-104 | The buy loop likewise, capped by the pool and the target |
| `Simulator.SimulatePortfolio` | services/backtesting/internal/service/simulate_portfolio.go:43-120 | The nested loops compute the pool after every open and the equity at every close, and the final equity is the last point |
| `SharedPool.PoolIsShared` | services/backtesting/internal/service/simulate_portfolio.go:61-104 | At an open each symbol due to be bought gets a stake of at most the equity at that open over the number of symbols, exactly that while cash remains, in symbol order; each due to be sold is sold out; every other is left alone |
| `SharedPool.FlatPoolSplitsEvenly` | services/backtesting/internal/service/simulate_portfolio.go:80-104 | From a flat pool k simultaneous buys get equal stakes of the cash over n, and cash times (n - k) over n is left |
| `SharedPool.OpenIsLogged` | services/backtesting/internal/service/simulate_portfolio.go:61-104 | The log grows by exactly the sales and then the purchases, in symbol order, at the open, for the quantity that moved, a sale with its gain on its basis |
| `SharedPool.EveryOpenIsShared` | services/backtesting/internal/service/simulate_portfolio.go:59-105 | So it is at every bar of every run, with the day before's signals and the day's opens |
| `Conservation.TargetIsStable` | services/backtesting/internal/service/simulate_portfolio.go:27-31 | The bar's one target is the target recomputed before any sell, between any two sells, between any two buys, or after them all |
| `Conservation.EquityIsExplained` | services/backtesting/internal/service/simulate_portfolio.go:51-112 | At every bar of every run cash and quantities are nonnegative and equity is the starting capital plus realized P/L plus what open positions stand above their cost |
| `Conservation.OpensMoveNoEquity` | services/backtesting/internal/service/simulate_portfolio.go:59-105 | Trading at an open changes no equity at that open |
| `NoLookahead.SignalsOfPrefix` | services/backtesting/internal/service/strategy.go:41-48 | Signals of a history cut short are the signals cut short, warm-up included |
| `NoLookahead.NothingIsForeseen` | services/backtesting/internal/service/backtest.go:73-77 | For each strategy and every k, signalling and simulating the first k bars gives a trade log and an equity curve that are prefixes of the full ones |
| `EarlierEnd.EarlierEndIsPrefix` | services/backtesting/internal/service/backtest.go:60-77 | On daily bars the same request with an earlier end date, if not refused, is not refused with the later one, and its trades and equity are prefixes of the later one's |
| `EarlierEnd.AlignedEarlier` | services/backtesting/internal/service/align.go:29-90 | Its aligned timeline is the first so many bars of the later one, for every symbol |
| `NoLookahead.TodaysCloseIsUnseen` | services/backtesting/internal/service/simulate_portfolio.go:14-17 | Histories that agree before a bar and on its open trade alike through that bar, whatever its close |
| `SingleSymbol.SingleSymbolRefines` | services/backtesting/internal/service/simulate_portfolio.go:38-42 | At one symbol the shared-pool simulation is the all-in engine: same trades, same equity |
| `SingleSymbol.CrossoverAlternates` | services/backtesting/internal/service/strategy.go:178-195 | A crossover strategy's signals strictly alternate between buy and sell |
| `SingleSymbol.EverySignalTradesOnce` | services/backtesting/internal/service/simulate_portfolio.go:38-118 | Under a crossover strategy a single-symbol run makes exactly one trade per signal, at the next open, except for a leading sell and a signal on the last bar |
| `Mirror.RsiMirrors` | services/backtesting/internal/service/indicators.go:52-101 | Replacing every close c by C - c turns each RSI into its complement |
| `Mirror.SignalsMirror` | services/backtesting/internal/service/strategy.go:256-282 | And, with the thresholds mirrored, swaps every buy and sell of the RSI strategy |
| `Align.SliceRange` | services/backtesting/internal/service/backtest.go:234-243 | The bars from the start instant through the end of the end date |
| `Align.RangeIsDays` | services/backtesting/internal/service/backtest.go:228-243 | Between dates those are the bars of the days from the first to the last, both included |
| `Align.AlignBars` | services/backtesting/internal/service/align.go:29-90 | Symbols in ascending order, and per symbol the bars of the days of the first that every other has |
| `Align.DayBarIsLast` | services/backtesting/internal/service/align.go:29-90 | Where a symbol has several bars on a day the last in its list stands for it |
| `Align.RowsAreDays` | services/backtesting/internal/service/align.go:13-19 | On any input all series are equally long and a bar index is one day for every symbol |
| `Align.AlignedIsCalendar` | services/backtesting/internal/service/align.go:29-90 | On daily bars the timeline is exactly the ascending days every symbol has within the range |
| `Align.OneIntersection` | services/ai-insights/internal/service/calendar.go:42-79 | With an all-covering range the two services' intersections are the same days |
| `Align.ScenarioIsTradable` | services/backtesting/internal/service/align.go:29-90 | Bars that all open at a nonzero price align to a scenario in which every buy has a price to divide by |
| `Align.RunBacktest` | services/backtesting/internal/service/backtest.go:60-77 | Align, check the warm-up once, signal, simulate: unavailable for an empty intersection, too few bars below the warm-up, the simulation of the aligned scenario otherwise |
| `Backoff.DelayByDoubling` | services/gateway/internal/limiter/backoff.go:30-53 | The doubling loop is the least of the cap and the base times a power of two, and no value doubled into reaches twice the cap, however many failures |
| `Backoff.DelayBounds` | services/gateway/internal/limiter/backoff.go:30-53 | The delay never exceeds the cap and, past the free failures, is at least the smaller of base and cap |
| `Backoff.Limiter.TryAttempt` | services/gateway/internal/limiter/backoff.go:117-142 | Checks and counts in one step: the answer and the new map are those of the admission rule; a refusal changes nothing |
| `Backoff.Limiter.Succeed` | services/gateway/internal/limiter/backoff.go:145-149 | Clears the key |
| `Backoff.Limiter.Undo` | services/gateway/internal/limiter/backoff.go:157-169 | Takes one failure back, and the key with the last |
| `Backoff.Limiter.EvictStale` | services/gateway/internal/limiter/backoff.go:173-184 | Removes exactly the stale entries |
| `Backoff.RetryAfterIsExact` | services/gateway/internal/limiter/backoff.go:130-137 | A refusal's wait is positive and exact: refused until then, admitted from then on |
| `Backoff.UndoRestoresCountNotTime` | services/gateway/internal/limiter/backoff.go:151-169 | Undoing an admitted attempt restores a live count exactly but keeps the attempt's time; any other key is as if never tried |
| `Backoff.EvictionIsInvisible` | services/gateway/internal/limiter/backoff.go:171-184 | Evicting whenever and however often, by however late a clock, changes no answer of a run whose attempts read the clock in order |
| `BackoffBounds.CountIsBounded` | services/gateway/internal/limiter/backoff.go:117-142 | Over every run a tracked count is at least one and at most the free failures plus the doublings that reach the cap, whatever the clock reads |
| `BackoffBounds.CountIsReached` | services/gateway/internal/limiter/backoff.go:117-142 | And a client that waits exactly as long as it must reaches that bound |
| `BackoffBounds.GuessesPerBurst` | services/gateway/internal/limiter/backoff.go:105-116 | Without outcomes, an interval shorter than the smaller of base and cap admits at most one more than the free failures, after any history and in whatever order the clock was read |
| `Login.ServeRecorded` | services/gateway/internal/middleware/ratelimit.go:66-89 | The recorded status is the last header written, or 200 for a body without one |
| `Login.RecordedIsLastHeader` | services/gateway/internal/middleware/ratelimit.go:66-89 | That is, whatever body came after the header; nothing for a response never written to |
| `Login.RetryAfterSeconds` | services/gateway/internal/middleware/ratelimit.go:29-43 | The fewest whole seconds, but at least one, that cover the wait, whatever its sign |
| `Login.ObeyedHeaderIsAdmitted` | services/gateway/internal/middleware/ratelimit.go:29-43 | A client that waits the seconds it was told is admitted |
| `LoginCounts.OnlyWrongPasswordsCount` | services/gateway/internal/middleware/ratelimit.go:185-207 | In every interleaving of arrivals, outcomes and sweeps a tracked count is at least one and at most the wrong passwords since the last success plus the requests still waiting |
| `LoginCounts.OutagesLeaveNoTrace` | services/gateway/internal/middleware/ratelimit.go:201-207 | Once all have settled, a key with no wrong password since its last success is not tracked |
| `LoginCounts.NoKeyIsNeverCounted` | services/gateway/internal/middleware/ratelimit.go:175-183 | A request whose body names no account is never counted |
| `LoginCounts.CountIsOwedLessMissing` | services/gateway/internal/middleware/ratelimit.go:185-207 | The exact law, in every interleaving: a key's count is its wrong passwords since its last clear (a success, a sweep that drops it, an attempt that finds it stale) plus its requests still waiting that were let in since, less the failures late outcomes have lost and not made good; it is never more, and the key is tracked exactly while it is positive |
| `LoginCounts.ExactUnlessLate` | services/gateway/internal/middleware/ratelimit.go:185-207 | The count is right all along a run if and only if no request let in before its key's last clear ever settles with a wrong password, or with an error while the key is tracked |
| `LoginCounts.OneEventLoses` | services/gateway/internal/middleware/ratelimit.go:185-207 | Where the count is right, one more event leaves it right unless it is such a settlement, and such a settlement always leaves it one short |
| `LoginCounts.RightSinceClear` | services/gateway/internal/limiter/backoff.go:117-184 | Every clear is a fresh start: with no such settlement since the last one the count is exactly the wrong passwords plus the requests still waiting since then |
| `LoginCounts.LateWrongPasswordIsLost` | services/gateway/internal/middleware/ratelimit.go:196-200 | A loss with no error in it: a wrong password answered after another request's success is never counted, in a four-step run |
| `LoginCounts.UndoCanTakeAnothersFailure` | services/gateway/internal/limiter/backoff.go:151-169 | The other loss: an error answered after a success takes back a later wrong password, in a six-step run |
| `Window.MemoryStore.Allow` | services/gateway/internal/limiter/memory.go:69-93 | The answer and the key's shard are those of the window rule; every other shard is untouched |
| `Window.MemoryStore.EvictStale` | services/gateway/internal/limiter/memory.go:103-114 | Every shard loses exactly its elapsed entries |
| `Window.RetryAfterIsExact` | services/gateway/internal/limiter/memory.go:84-89 | A refused key stays refused until its wait is over and is admitted from then on |
| `Window.ShardedStoreIsOneMap` | services/gateway/internal/limiter/memory.go:57-114 | For any hash and any sweeping, late clocks included, the sixteen shards answer as one map never swept, as long as no request asks about a longer window than its key's entry was opened with |
| `Window.SweepShowsIff` | services/gateway/internal/limiter/memory.go:69-114 | At one request the sweep shows, in the entry left behind, exactly when it took an entry whose start is still inside the window asked about, and in the answer exactly when that entry was full besides; only a longer window can show it |
| `Window.MixedWindowsDiffer` | services/gateway/internal/limiter/memory.go:17-24 | And with a longer window it does show: a three-step run |
| `Window.AtMostOneMoreWindow` | services/gateway/internal/limiter/memory.go:69-93 | With one limit and one window, any closed stretch of at most k windows admits at most k + 1 times the limit (a limit below one counts as one) |
| `Window.RefusedOnlyWhenSpent` | services/gateway/internal/limiter/memory.go:69-93 | No request is refused before its budget is spent: a refused one finds at least its limit admitted within its window, whatever windows and limits came before |
| `Window.StoreKeepsTheBound` | services/gateway/internal/limiter/memory.go:57-114 | The sharded, swept store keeps that bound for every key used with one limit and one window, whatever the other keys do |
| `Format.Group` | services/ai-insights/internal/narrative/render.go:172-190 | Sign, whole part with a comma before every third digit from the right, and the rest unchanged |
| `Format.GroupingReadsBack` | services/ai-insights/internal/narrative/render.go:172-190 | Taking the commas out of a grouped figure gives back the figure |
| `Format.CommaEveryThree` | services/ai-insights/internal/narrative/render.go:172-190 | The commas stand exactly before every third digit from the right, and never first |
| `Format.DecimalReadsBack` | services/ai-insights/internal/narrative/render.go:152-167 | A figure written to any number of places reads back as the value rounded half away from zero at those places |
| `Format.ScaledIsNearest` | services/ai-insights/internal/narrative/render.go:152-167 | That rounding is to the nearest figure of its places, halves away from zero |
| `Format.MinusIsBelowZero` | services/ai-insights/internal/narrative/render.go:152-167 | A figure opens with a minus if and only if it is below zero |
| `Format.TrimmingReadsBack` | services/ai-insights/internal/narrative/render.go:192-198 | Trimming trailing zeros leaves a well-formed figure that reads the same and ends in no zero |
| `Values.FormatValue` | services/ai-insights/internal/narrative/render.go:103-150 | One value as text: an error exactly for a date that is none and for no kind; a figure that says the value's sign and digits at its kind's places; a date that reads back to its day; a symbol as it is |
| `Values.FigureReadsBack` | services/ai-insights/internal/narrative/render.go:103-150 | For every numeric kind, what is rendered says the value's sign and its digits at the kind's places and nothing else |
| `Values.ShownAs` | services/ai-insights/internal/narrative/render.go:103-132 | Percentages show one place and their sign, a plus exactly on signed ones above zero; ratios two places, indices three, money two, counts none, quantities at most four |
| `Values.DateReadsBack` | services/ai-insights/internal/narrative/render.go:134-143 | A rendered date, month, day and year between slashes and none of them padded, reads back to the day the report names |
| `Values.RenderableIsPlain` | services/ai-insights/internal/narrative/render.go:103-150 | A value of a known kind, a real date or a brace-free symbol renders, and without braces |
| `Narrative.TokenizersAgree` | services/ai-insights/internal/narrative/validate.go:52-56 | The pattern and the index scan read the same pieces exactly on the drafts the pattern leaves no brace of; elsewhere the scan stops short or takes a brace into a name or the text |
| `Narrative.Render` | services/ai-insights/internal/narrative/render.go:28-60 | The loop renders token by token, with whichever error comes first: an unterminated brace, an unknown token, a value that will not format |
| `Narrative.RenderedIsSubstituted` | services/ai-insights/internal/narrative/render.go:28-60 | Rendering a draft whose tokens are all offered is its text with each token replaced by its formatted value |
| `Drafts.Validate` | services/ai-insights/internal/narrative/validate.go:70-137 | The checks in their fixed order, first failure reported with the text it quotes |
| `Drafts.RejectionQuotes` | services/ai-insights/internal/narrative/validate.go:70-200 | What a rejection quotes: a figure or unit of the draft in at most forty characters around it, a token that was used and never offered, or the beginning of the draft |
| `Drafts.FirstFailureIsTold` | services/ai-insights/internal/narrative/validate.go:70-137 | A draft that fails several checks is told of the first, in the fixed order |
| `Drafts.AcceptedIff` | services/ai-insights/internal/narrative/validate.go:70-137 | A draft is accepted if and only if it is not blank, within the cap, free of digits, units and banned words, offers only known tokens and has no brace outside one |
| `Drafts.CountsMatch` | services/ai-insights/internal/narrative/validate.go:108-134 | Comparing brace counts rejects nothing the last check would accept |
| `Drafts.AcceptedRenders` | services/ai-insights/internal/narrative/validate.go:58-137 | An accepted draft renders without error to its own text with tokens replaced; no brace is in the result and every digit, percent or dollar sign in it lies inside a substituted value |
| `Drafts.ValidateSections` | services/ai-insights/internal/narrative/validate.go:144-172 | The first bad section in name order, else the total cap |
| `Drafts.RenderSections` | services/ai-insights/internal/narrative/generate.go:169-179 | Every section rendered, or some section that does not render |
| `Drafts.Generate` | services/ai-insights/internal/narrative/generate.go:57-103 | At most two drafts, the second asked for with the first rejection quoted; the result renders an accepted draft, passes the generator's failure on, or says both were rejected; an accepted draft that will not render is impossible over a renderable vocabulary |
| `Placeholders.LargestPosition` | services/ai-insights/internal/narrative/placeholders.go:145-156 | The first of the heaviest positions, none for none |
| `Placeholders.BuildVocabulary` | services/ai-insights/internal/narrative/placeholders.go:46-138 | The loops build the report's vocabulary section by section, skipping sections not computed and names not safe |
| `TokenValues.RiskTokensSay` | services/ai-insights/internal/narrative/placeholders.go:61-91 | Each figure of the risk section stands under its own name in the whole vocabulary, overwritten by nothing, the heaviest holding among them |
| `TokenValues.BenchmarkingTokensSay` | services/ai-insights/internal/narrative/placeholders.go:93-110 | So does each figure of the benchmarking section |
| `TokenValues.BehaviorTokensSay` | services/ai-insights/internal/narrative/placeholders.go:112-120 | And of the behaviour section |
| `TokenValues.WindowTokensSay` | services/ai-insights/internal/narrative/placeholders.go:49-59 | And each date and count of the window, where the report has it |
| `TokenValues.PositionTokensSay` | services/ai-insights/internal/narrative/placeholders.go:83-91 | A listed position's weight, value and quantity stand under its own symbol, the last one's where two share it |
| `TokenValues.BenchmarkTokensSay` | services/ai-insights/internal/narrative/placeholders.go:102-110 | A benchmark's return, excess and Sharpe ratio likewise |
| `TokenValues.FindingTokensSay` | services/ai-insights/internal/narrative/placeholders.go:121-136 | And a finding's ratio and occurrences under its code, where they are not zero |
| `Placeholders.VocabularyIsSound` | services/ai-insights/internal/narrative/placeholders.go:10-23 | Whatever symbols and codes arrive, every token name is brace-free and every value renders, given well-formed dates |
| `Placeholders.EmptyIffNothingComputed` | services/ai-insights/internal/narrative/placeholders.go:43-45 | The vocabulary is empty if and only if no section was computed |
| `Placeholders.AdvertisedAlwaysRenders` | services/ai-insights/internal/narrative/placeholders.go:27-31 | Every token the vocabulary offers renders, alone in braces, to exactly its formatted value |
| `Placeholders.Narrate` | services/ai-insights/internal/narrative/generate.go:80-90 | From report to prose at most two drafts are bought, none for an empty report, and a validated draft that fails to render never happens |

## Left out

- IEEE floating point: rounding of intermediate results, negative zero, NaN and infinities. Arithmetic is exact, and the tolerances and the dust threshold keep their written values.
- Ledger.PostgresTradingStore.ExecuteOrder: a commit whose acknowledgement is lost is modelled as a failed commit; the database's own constraints and overflow of NUMERIC(20,4) are not modelled.
- Transactions.Serializable: locks are granted in any order and waiting is an event not yet enabled; deadlock cannot arise with one row lock and is not modelled, nor are timeouts other than as rollbacks.
- AccountReconciles.HonestAccountAccepted: at prices of more than four decimals the bound counts shares too, because the trade row then stores another price than was charged.
- Sections.ComputeRisk: the square root behind volatility and Sharpe ratios is any function; no digit of either is computed.
- PortfolioMath.OnePassFindsTheWorstPair: curves never below zero only; below zero the pairwise maximum and the loop may differ, and a curve shows it.
- Backoff.EvictionIsInvisible: an attempt's clock reading is at least all earlier ones, a sweep's may lag; the code reads the clock before it takes the lock.
- Window.ShardedStoreIsOneMap: a request's reading is at least all earlier ones; a sweeper's may lag.
- Backoff.DelayByDoubling: durations are unbounded integers; that no doubled value reaches twice the cap is what keeps 64 bits enough.
- Drafts.Validate: the list of banned words is any function that finds a first word, and text is ASCII, so fragments are never cut inside a character.
- Drafts.Generate: the model, the reading of its JSON and the wording of a correction are arbitrary functions.
- Placeholders.BuildVocabulary: counts and figures of the report arrive as they are; that two positions share a symbol is resolved as the loop does, by the later one.
- Simulator.SimulatePortfolio: a symbol due to be bought opens at a nonzero price, since the code divides by it and floating point answers infinity; JSON shapes and persistence are left out.
- Trade history is served in full: the cap of ten thousand trades per answer is not modelled.
- HTTP handlers, routing, proxies, authentication, SQL text, drivers, Redis, market-data ingestion, report hashing, the narrative cache and daily cap, and the frontend.
