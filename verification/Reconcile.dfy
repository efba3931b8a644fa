/** The guard between the rebuilt history and the account it describes. */
module Reconcile {
  import opened Numeric
  import opened Wrappers
  import opened Market
  import opened Ordering
  import opened Reconstruct

  const CASH_TOLERANCE: real := 0.01
  const QUANTITY_TOLERANCE: real := 0.0001

  datatype LivePosition = LivePosition(symbol: Symbol, quantity: int)
  datatype LivePortfolio = LivePortfolio(balance: real, positions: seq<LivePosition>)

  datatype Divergence =
    | CashDiverges(derivedCash: real, balance: real)
    | AccountHoldsNone(symbol: Symbol, derived: int)
    | NothingDerived(symbol: Symbol, actual: int)
    | QuantityDiverges(symbol: Symbol, derived: int, actual: int)

  function Abs(x: real): real {
    if x < 0.0 then -x else x
  }

  // ---- the pieces as values

  /** The derived state rolled forward through the trades dated after asOf. */
  function ProjectFrom(cash: real, holdings: Holdings, trades: seq<Trade>, asOf: int): (real, Holdings) {
    if trades == [] then (cash, holdings)
    else
      var last := trades[|trades| - 1];
      var (c, h) := ProjectFrom(cash, holdings, trades[..|trades| - 1], asOf);
      if Day(last.executedAt) > asOf then ApplyTrade(last, c, h) else (c, h)
  }

  function Projected(r: Reconstruction, trades: seq<Trade>): (real, Holdings)
    requires r.dates != [] && |r.cash| == |r.dates|
  {
    ProjectFrom(r.cash[|r.cash| - 1], r.holdings, trades, r.dates[|r.dates| - 1])
  }

  function LiveHoldings(positions: seq<LivePosition>): Holdings {
    if positions == [] then map[]
    else
      var last := positions[|positions| - 1];
      var earlier := LiveHoldings(positions[..|positions| - 1]);
      if Abs(Shares(last.quantity)) > QUANTITY_TOLERANCE then earlier[last.symbol := last.quantity] else earlier
  }

  function SymbolVerdict(derived: Holdings, actual: Holdings, s: Symbol): Option<Divergence> {
    if s !in actual then Some(AccountHoldsNone(s, Quantity(derived, s)))
    else if s !in derived then Some(NothingDerived(s, actual[s]))
    else if Abs(Shares(derived[s]) - Shares(actual[s])) > QUANTITY_TOLERANCE
    then Some(QuantityDiverges(s, derived[s], actual[s]))
    else None
  }

  function FirstDivergence(symbols: seq<Symbol>, derived: Holdings, actual: Holdings): Option<Divergence> {
    if symbols == [] then None
    else
      var earlier := FirstDivergence(symbols[..|symbols| - 1], derived, actual);
      if earlier.Some? then earlier else SymbolVerdict(derived, actual, symbols[|symbols| - 1])
  }

  function HoldingsVerdict(derived: Holdings, actual: Holdings): Option<Divergence> {
    FirstDivergence(SortedKeys(derived.Keys + actual.Keys), derived, actual)
  }

  function Verdict(cash: real, derived: Holdings, live: LivePortfolio): Option<Divergence> {
    if Abs(cash - live.balance) > CASH_TOLERANCE then Some(CashDiverges(cash, live.balance))
    else HoldingsVerdict(derived, LiveHoldings(live.positions))
  }

  function ReconcileVerdict(r: Reconstruction, trades: seq<Trade>, live: LivePortfolio): Option<Divergence>
    requires |r.cash| == |r.dates|
  {
    if r.dates == [] then None
    else var (cash, holdings) := Projected(r, trades); Verdict(cash, holdings, live)
  }

  // ---- the loops

  method ProjectPastCalendar(r: Reconstruction, trades: seq<Trade>) returns (cash: real, holdings: Holdings)
    requires r.dates != [] && |r.cash| == |r.dates|
    ensures (cash, holdings) == Projected(r, trades)
  {
    var asOf := r.dates[|r.dates| - 1];
    cash := r.cash[|r.cash| - 1];
    holdings := r.holdings;
    for i := 0 to |trades|
      invariant (cash, holdings) == ProjectFrom(r.cash[|r.cash| - 1], r.holdings, trades[..i], asOf)
    {
      assert trades[..i + 1][..i] == trades[..i];
      if Day(trades[i].executedAt) > asOf {
        var (c, h) := ApplyTrade(trades[i], cash, holdings);
        cash, holdings := c, h;
      }
    }
    assert trades[..|trades|] == trades;
  }

  lemma {:induction false} DivergenceStays(symbols: seq<Symbol>, k: nat, derived: Holdings, actual: Holdings)
    requires k <= |symbols| && FirstDivergence(symbols[..k], derived, actual).Some?
    ensures FirstDivergence(symbols, derived, actual) == FirstDivergence(symbols[..k], derived, actual)
    decreases |symbols|
  {
    if k == |symbols| {
      assert symbols[..k] == symbols;
    } else {
      assert symbols[..|symbols| - 1][..k] == symbols[..k];
      DivergenceStays(symbols[..|symbols| - 1], k, derived, actual);
    }
  }

  method CompareHoldings(symbols: seq<Symbol>, derived: Holdings, actual: Holdings) returns (e: Option<Divergence>)
    requires forall s :: s in symbols ==> s in derived || s in actual
    ensures e == FirstDivergence(symbols, derived, actual)
  {
    for k := 0 to |symbols|
      invariant FirstDivergence(symbols[..k], derived, actual) == None
    {
      var s := symbols[k];
      assert symbols[..k + 1][..k] == symbols[..k];
      e := None;
      if s !in actual {
        e := Some(AccountHoldsNone(s, derived[s]));
      } else if s !in derived {
        e := Some(NothingDerived(s, actual[s]));
      } else if Abs(Shares(derived[s]) - Shares(actual[s])) > QUANTITY_TOLERANCE {
        e := Some(QuantityDiverges(s, derived[s], actual[s]));
      }
      if e.Some? {
        DivergenceStays(symbols, k + 1, derived, actual);
        return;
      }
    }
    assert symbols[..|symbols|] == symbols;
    e := None;
  }

  method CheckAgainstAccount(r: Reconstruction, trades: seq<Trade>, live: LivePortfolio) returns (e: Option<Divergence>)
    requires |r.cash| == |r.dates|
    ensures e == ReconcileVerdict(r, trades, live)
  {
    if |r.dates| == 0 {
      return None;
    }
    var derivedCash, derived := ProjectPastCalendar(r, trades);
    if Abs(derivedCash - live.balance) > CASH_TOLERANCE {
      return Some(CashDiverges(derivedCash, live.balance));
    }
    var actual: Holdings := map[];
    for i := 0 to |live.positions|
      invariant actual == LiveHoldings(live.positions[..i])
    {
      assert live.positions[..i + 1][..i] == live.positions[..i];
      if Abs(Shares(live.positions[i].quantity)) > QUANTITY_TOLERANCE {
        actual := actual[live.positions[i].symbol := live.positions[i].quantity];
      }
    }
    assert live.positions[..|live.positions|] == live.positions;
    e := CompareHoldings(SortedKeys(derived.Keys + actual.Keys), derived, actual);
  }

  // ---- what acceptance means

  ghost predicate SymbolAgrees(derived: Holdings, actual: Holdings, s: Symbol) {
    (s in derived <==> s in actual) && (s in derived ==> -1 <= derived[s] - actual[s] <= 1)
  }

  /** The same symbols, each within one tick. */
  ghost predicate HoldingsAgree(derived: Holdings, actual: Holdings) {
    forall s :: SymbolAgrees(derived, actual, s)
  }

  lemma {:induction false} NoDivergenceMeans(symbols: seq<Symbol>, derived: Holdings, actual: Holdings)
    requires forall s :: s in symbols ==> s in derived || s in actual
    ensures FirstDivergence(symbols, derived, actual).None? <==> forall s :: s in symbols ==> SymbolAgrees(derived, actual, s)
  {
    if symbols != [] {
      var last := symbols[|symbols| - 1];
      NoDivergenceMeans(symbols[..|symbols| - 1], derived, actual);
      assert symbols == symbols[..|symbols| - 1] + [last];
      assert last in symbols;
    }
  }

  lemma HoldingsVerdictIff(derived: Holdings, actual: Holdings)
    ensures HoldingsVerdict(derived, actual).None? <==> HoldingsAgree(derived, actual)
  {
    var symbols := SortedKeys(derived.Keys + actual.Keys);
    NoDivergenceMeans(symbols, derived, actual);
    assert forall s :: s !in symbols ==> SymbolAgrees(derived, actual, s);
  }

  /** What a named divergence says: the symbol it names is held on the side it says and not on the other, or on both, as
      much as it says and more than a tick apart. */
  ghost predicate Tells(d: Divergence, derived: Holdings, actual: Holdings) {
    match d
    case AccountHoldsNone(s, q) => s in derived && s !in actual && q == derived[s]
    case NothingDerived(s, q) => s !in derived && s in actual && q == actual[s]
    case QuantityDiverges(s, x, y) =>
      s in derived && s in actual && x == derived[s] && y == actual[s] && !(-1 <= x - y <= 1)
    case CashDiverges(_, _) => false
  }

  /** And it is the first such symbol: every one before it agrees. */
  lemma {:induction false} FirstDivergenceTells(symbols: seq<Symbol>, derived: Holdings, actual: Holdings)
    requires forall s :: s in symbols ==> s in derived || s in actual
    ensures var d := FirstDivergence(symbols, derived, actual);
            d.Some? ==> && Tells(d.value, derived, actual)
                        && exists k :: 0 <= k < |symbols| && symbols[k] == d.value.symbol
                                       && forall j :: 0 <= j < k ==> SymbolAgrees(derived, actual, symbols[j])
  {
    if symbols != [] {
      var earlier, last := symbols[..|symbols| - 1], symbols[|symbols| - 1];
      FirstDivergenceTells(earlier, derived, actual);
      assert last in symbols;
      if FirstDivergence(earlier, derived, actual).None? {
        NoDivergenceMeans(earlier, derived, actual);
        forall j | 0 <= j < |earlier| ensures SymbolAgrees(derived, actual, symbols[j]) {
          assert earlier[j] in earlier;
        }
        assert symbols[|symbols| - 1] == last;
      } else {
        var d := FirstDivergence(earlier, derived, actual).value;
        var k :| 0 <= k < |earlier| && earlier[k] == d.symbol
                 && forall j :: 0 <= j < k ==> SymbolAgrees(derived, actual, earlier[j]);
        assert symbols[k] == d.symbol && forall j :: 0 <= j < k ==> symbols[j] == earlier[j];
      }
    }
  }

  /** A refusal over holdings names the first symbol, in ascending order, that does not agree, and tells what it is. */
  lemma RefusalTells(derived: Holdings, actual: Holdings)
    ensures var d := HoldingsVerdict(derived, actual);
            d.Some? ==> && Tells(d.value, derived, actual)
                        && forall s :: s != d.value.symbol && AtMost(s, d.value.symbol) ==> SymbolAgrees(derived, actual, s)
  {
    var symbols := SortedKeys(derived.Keys + actual.Keys);
    FirstDivergenceTells(symbols, derived, actual);
    hide FirstDivergence, Tells;
    var d := HoldingsVerdict(derived, actual);
    if d.Some? {
      var k :| 0 <= k < |symbols| && symbols[k] == d.value.symbol
               && forall j :: 0 <= j < k ==> SymbolAgrees(derived, actual, symbols[j]);
      forall s | s != d.value.symbol && AtMost(s, d.value.symbol) ensures SymbolAgrees(derived, actual, s) {
        EarlierAgrees(symbols, k, s, derived, actual);
      }
    }
  }

  lemma EarlierAgrees(symbols: seq<Symbol>, k: nat, s: Symbol, derived: Holdings, actual: Holdings)
    requires k < |symbols| && Ascending(symbols) && (forall x :: x in derived || x in actual <==> x in symbols)
    requires forall j :: 0 <= j < k ==> SymbolAgrees(derived, actual, symbols[j])
    requires s != symbols[k] && AtMost(s, symbols[k])
    ensures SymbolAgrees(derived, actual, s)
  {
    hide AtMost;
    if s in symbols {
      var j :| 0 <= j < |symbols| && symbols[j] == s;
      if j > k {
        AtMostAntisymmetric(symbols[k], symbols[j]);
      }
    }
  }

  /** Acceptance, in full: cash within a cent, the same symbols held, each within one tick. */
  lemma VerdictIff(cash: real, derived: Holdings, live: LivePortfolio)
    ensures Verdict(cash, derived, live).None? <==>
              && Abs(cash - live.balance) <= CASH_TOLERANCE
              && HoldingsAgree(derived, LiveHoldings(live.positions))
  {
    HoldingsVerdictIff(derived, LiveHoldings(live.positions));
  }

  // ---- the calendar makes no difference

  function After(trades: seq<Trade>, asOf: int): seq<Trade> {
    if trades == [] then []
    else
      var last := trades[|trades| - 1];
      After(trades[..|trades| - 1], asOf) + if Day(last.executedAt) > asOf then [last] else []
  }

  lemma {:induction false} AfterCounts(trades: seq<Trade>, asOf: int, t: Trade)
    ensures multiset(After(trades, asOf))[t] == if Day(t.executedAt) > asOf then multiset(trades)[t] else 0
  {
    if trades != [] {
      hide Day;
      var earlier, last := trades[..|trades| - 1], trades[|trades| - 1];
      AfterCounts(earlier, asOf, t);
      assert trades == earlier + [last];
      assert After(earlier, asOf) + [] == After(earlier, asOf);
    }
  }

  lemma SplitAtDate(trades: seq<Trade>, asOf: int)
    ensures multiset(Upto(trades, asOf) + After(trades, asOf)) == multiset(trades)
  {
    hide Upto, After;
    var both := Upto(trades, asOf) + After(trades, asOf);
    forall t ensures multiset(both)[t] == multiset(trades)[t] {
      UptoCounts(trades, asOf, t);
      AfterCounts(trades, asOf, t);
    }
  }

  lemma {:induction false} ProjectionSums(base: seq<Trade>, holdings: Holdings, trades: seq<Trade>, asOf: int)
    requires Holds(holdings, base)
    ensures var (c, h) := ProjectFrom(Cash(base), holdings, trades, asOf);
            c == Cash(base + After(trades, asOf)) && Holds(h, base + After(trades, asOf))
  {
    if trades == [] {
      assert base + [] == base;
    } else {
      var earlier, last := trades[..|trades| - 1], trades[|trades| - 1];
      ProjectionSums(base, holdings, earlier, asOf);
      if Day(last.executedAt) > asOf {
        var (c, h) := ProjectFrom(Cash(base), holdings, earlier, asOf);
        ApplyTradeHolds(last, c, h, base + After(earlier, asOf));
        assert base + After(trades, asOf) == base + After(earlier, asOf) + [last];
      } else {
        assert After(trades, asOf) == After(earlier, asOf);
      }
    }
  }

  lemma ProjectsToLog(trades: seq<Trade>, r: Reconstruction)
    requires EndsAsLog(r, trades) && r.dates != []
    ensures Projected(r, trades) == (Cash(trades), NetHoldings(trades)) && Holds(NetHoldings(trades), trades)
  {
    var asOf := r.dates[|r.dates| - 1];
    var base := Upto(trades, asOf);
    NetHoldingsHold(base);
    ProjectionSums(base, r.holdings, trades, asOf);
    SplitAtDate(trades, asOf);
    SumsIgnoreOrder(base + After(trades, asOf), trades);
    HoldsIsNetHoldings(Projected(r, trades).1, trades);
    NetHoldingsHold(trades);
  }

  /** Calendar independence. Whatever dates the calendar has or lacks, if it yields any curve at all then
      rolling that curve forward gives the sums over the whole log: no trade is lost to a date the calendar
      skips, none is counted twice, and a symbol is held exactly when its signed quantities do not cancel. */
  lemma CalendarIndependence(trades: seq<Trade>, closes: Closes, calendar: seq<int>, r: Reconstruction)
    requires Reconstructed(trades, closes, calendar) == Ok(r) && r.dates != []
    ensures |r.cash| == |r.dates| && Projected(r, trades) == (Cash(trades), NetHoldings(trades))
    ensures Holds(NetHoldings(trades), trades)
  {
    ReconstructedEndsAsLog(trades, closes, calendar, r);
    ProjectsToLog(trades, r);
  }

  lemma ProjectedVerdict(trades: seq<Trade>, r: Reconstruction, live: LivePortfolio)
    requires EndsAsLog(r, trades) && r.dates != []
    ensures ReconcileVerdict(r, trades, live) == Verdict(Cash(trades), NetHoldings(trades), live)
  {
    ProjectsToLog(trades, r);
  }

  /** So the verdict compares the account with the sums of the log, and nothing else matters. */
  lemma VerdictOnLog(trades: seq<Trade>, r: Reconstruction, live: LivePortfolio)
    requires EndsAsLog(r, trades)
    ensures ReconcileVerdict(r, trades, live).None? <==>
              r.dates == [] || (&& Abs(Cash(trades) - live.balance) <= CASH_TOLERANCE
                                && HoldingsAgree(NetHoldings(trades), LiveHoldings(live.positions)))
  {
    if r.dates != [] {
      ProjectedVerdict(trades, r, live);
      VerdictIff(Cash(trades), NetHoldings(trades), live);
    }
  }

  /** A history of no dates contradicts nothing. */
  lemma NoHistoryIsAccepted(trades: seq<Trade>, r: Reconstruction, live: LivePortfolio)
    requires |r.cash| == |r.dates| == 0
    ensures ReconcileVerdict(r, trades, live).None?
  {}

  // ---- soundness: a log that is not the account's

  /** The account reports every position the true log implies, bar those of at most one tick. */
  ghost predicate ReportsLog(live: LivePortfolio, log: seq<Trade>) {
    var actual := LiveHoldings(live.positions);
    forall s :: (s in actual <==> !(-1 <= Net(log, s) <= 1)) && (s in actual ==> actual[s] == Net(log, s))
  }

  /** What a log derives for a symbol against what the account's own log does: held on both sides or on neither, and
      within a tick. */
  predicate Passes(derived: int, kept: int) {
    (derived != 0 <==> !(-1 <= kept <= 1)) && (derived != 0 ==> -1 <= derived - kept <= 1)
  }

  /** Every symbol passes. */
  ghost predicate AllPass(other: seq<Trade>, log: seq<Trade>) {
    forall s :: PassesFor(other, log, s)
  }

  ghost predicate PassesFor(other: seq<Trade>, log: seq<Trade>, s: Symbol) {
    Passes(Net(other, s), Net(log, s))
  }

  lemma HoldingsPassIff(log: seq<Trade>, other: seq<Trade>, live: LivePortfolio)
    requires ReportsLog(live, log)
    ensures HoldingsAgree(NetHoldings(other), LiveHoldings(live.positions)) <==> AllPass(other, log)
  {
    hide Net, LiveHoldings, NetHoldings;
    var derived, actual := NetHoldings(other), LiveHoldings(live.positions);
    NetHoldingsHold(other);
    forall s ensures SymbolAgrees(derived, actual, s) <==> PassesFor(other, log, s) {}
    hide SymbolAgrees, PassesFor;
  }

  /** Acceptance of any log at all, exactly: cash within a cent of the balance, and every symbol passes. */
  lemma AnyLogAcceptedIff(log: seq<Trade>, other: seq<Trade>, r: Reconstruction, live: LivePortfolio)
    requires EndsAsLog(r, other) && r.dates != [] && ReportsLog(live, log)
    ensures ReconcileVerdict(r, other, live).None? <==>
              Abs(Cash(other) - live.balance) <= CASH_TOLERANCE && AllPass(other, log)
  {
    hide ReconcileVerdict, LiveHoldings, Cash, AllPass, HoldingsAgree, NetHoldings, ReportsLog, EndsAsLog;
    VerdictOnLog(other, r, live);
    HoldingsPassIff(log, other, live);
  }

  /** A log that puts any symbol two ticks or more from the truth is refused whatever its cash says. */
  lemma TwoTicksOffIsRefused(log: seq<Trade>, faulty: seq<Trade>, s: Symbol, r: Reconstruction, live: LivePortfolio)
    requires EndsAsLog(r, faulty) && r.dates != []
    requires ReportsLog(live, log)
    requires !(-2 < Net(faulty, s) - Net(log, s) < 2)
    ensures ReconcileVerdict(r, faulty, live).Some?
  {
    hide ReconcileVerdict, Net, Cash, ReportsLog, EndsAsLog;
    AnyLogAcceptedIff(log, faulty, r, live);
    assert !PassesFor(faulty, log, s);
  }

  /** No symbol but this one is held at exactly one tick, which the guard sees on one side only. */
  ghost predicate NoOneTickBut(log: seq<Trade>, symbol: Symbol) {
    forall s :: s != symbol ==> Net(log, s) != 1 && Net(log, s) != -1
  }

  lemma OthersPass(log: seq<Trade>, faulty: seq<Trade>, symbol: Symbol)
    requires forall s :: s != symbol ==> Net(faulty, s) == Net(log, s)
    ensures AllPass(faulty, log) <==> PassesFor(faulty, log, symbol) && NoOneTickBut(log, symbol)
  {
    hide Net;
    forall s | s != symbol ensures PassesFor(faulty, log, s) <==> Net(log, s) != 1 && Net(log, s) != -1 {}
    if AllPass(faulty, log) {
      forall s | s != symbol ensures Net(log, s) != 1 && Net(log, s) != -1 {
        assert PassesFor(faulty, log, s);
      }
    }
  }

  /** A dropped trade goes unseen exactly when it is of one tick, is worth no more than the tolerance leaves beside what
      cash was off by already, and was all that was held of its symbol, or more than a tick of that is held. */
  lemma DroppedTradeAcceptedIff(log: seq<Trade>, i: nat, r: Reconstruction, live: LivePortfolio)
    requires i < |log| && log[i].quantity >= 1 && ReportsLog(live, log)
    requires EndsAsLog(r, log[..i] + log[i + 1..]) && r.dates != []
    ensures var t := log[i];
            ReconcileVerdict(r, log[..i] + log[i + 1..], live).None? <==>
              && t.quantity == 1
              && Abs(Cash(log) - Flow(t) - live.balance) <= CASH_TOLERANCE
              && (Net(log, t.symbol) == Signed(t) || !(-1 <= Net(log, t.symbol) <= 1))
              && NoOneTickBut(log, t.symbol)
  {
    hide ReconcileVerdict, Net, Cash, Flow, ReportsLog, EndsAsLog;
    var faulty := log[..i] + log[i + 1..];
    CashSplit(log, i);
    AnyLogAcceptedIff(log, faulty, r, live);
    OthersPass(log, faulty, log[i].symbol);
  }

  lemma RepeatMoves(log: seq<Trade>, faulty: seq<Trade>, t: Trade)
    requires multiset(faulty) == multiset(log) + multiset{t}
    ensures Cash(faulty) == Cash(log) + Flow(t)
    ensures forall s :: Net(faulty, s) == Net(log, s) + if s == t.symbol then Signed(t) else 0
  {
    SumsIgnoreOrder(faulty, log + [t]);
    assert (log + [t])[..|log|] == log;
  }

  /** A repeated one exactly when it is of one tick, is worth no more than the tolerance leaves, and what is held of its
      symbol is more than a tick, or one tick the other way, which the repeat cancels. */
  lemma DuplicatedTradeAcceptedIff(log: seq<Trade>, faulty: seq<Trade>, i: nat, r: Reconstruction, live: LivePortfolio)
    requires i < |log| && log[i].quantity >= 1 && ReportsLog(live, log)
    requires multiset(faulty) == multiset(log) + multiset{log[i]}
    requires EndsAsLog(r, faulty) && r.dates != []
    ensures var t := log[i];
            ReconcileVerdict(r, faulty, live).None? <==>
              && t.quantity == 1
              && Abs(Cash(log) + Flow(t) - live.balance) <= CASH_TOLERANCE
              && (Net(log, t.symbol) == -Signed(t) || !(-1 <= Net(log, t.symbol) <= 1))
              && NoOneTickBut(log, t.symbol)
  {
    hide ReconcileVerdict, Net, Cash, Flow, ReportsLog, EndsAsLog;
    RepeatMoves(log, faulty, log[i]);
    AnyLogAcceptedIff(log, faulty, r, live);
    OthersPass(log, faulty, log[i].symbol);
  }

  function SideFlipped(t: Trade): Trade {
    t.(side := if t.side == Sell then Buy else Sell)
  }

  /** Mis-signing one trade of any size at all. */
  lemma FlippedSideIsRefused(log: seq<Trade>, i: nat, r: Reconstruction,
                             live: LivePortfolio)
    requires i < |log| && log[i].quantity >= 1 && ReportsLog(live, log)
    requires EndsAsLog(r, log[i := SideFlipped(log[i])]) && r.dates != []
    ensures ReconcileVerdict(r, log[i := SideFlipped(log[i])], live).Some?
  {
    var faulty := log[i := SideFlipped(log[i])];
    CashSplit(log, i);
    CashSplit(faulty, i);
    assert faulty[..i] + faulty[i + 1..] == log[..i] + log[i + 1..];
    TwoTicksOffIsRefused(log, faulty, log[i].symbol, r, live);
  }

  /** A history whose cash is more than a cent from the balance is refused, and for its cash. */
  lemma WrongCashIsRefused(trades: seq<Trade>, r: Reconstruction, live: LivePortfolio)
    requires EndsAsLog(r, trades) && r.dates != []
    requires Abs(Cash(trades) - live.balance) > CASH_TOLERANCE
    ensures ReconcileVerdict(r, trades, live) == Some(CashDiverges(Cash(trades), live.balance))
  {
    ProjectedVerdict(trades, r, live);
  }
}
