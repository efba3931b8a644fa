/** Rebuilding an account's daily history from its trade log and stored closes. */
module Reconstruct {
  import opened Numeric
  import opened Wrappers
  import opened Market
  import opened Ordering
  import opened Sums

  const STARTING_BALANCE: real := 100000.0
  const DUST_QUANTITY: real := 0.000000001

  /** quantity counts NUMERIC(20,4) ticks, the finest distinction a stored quantity can make. */
  datatype Trade = Trade(id: nat, symbol: Symbol, side: Side, quantity: int, price: real,
                         realizedPL: Option<real>, executedAt: Time)

  type Closes = map<Symbol, map<int, real>>
  type Holdings = map<Symbol, int>

  /** dates, equity and cash run in parallel; holdings is the position map as of the last date. */
  datatype Reconstruction = Reconstruction(dates: seq<int>, equity: seq<real>, cash: seq<real>, holdings: Holdings)

  datatype MissingClose = MissingClose(symbol: Symbol, date: int)

  // ---- what one trade does

  function Flow(t: Trade): real {
    if t.side == Sell then Amount(t.price, t.quantity) else -Amount(t.price, t.quantity)
  }

  function Signed(t: Trade): int {
    if t.side == Sell then -t.quantity else t.quantity
  }

  function Quantity(holdings: Holdings, symbol: Symbol): int {
    if symbol in holdings then holdings[symbol] else 0
  }

  /** The one fold step both the reconstruction and the reconciliation use. */
  function ApplyTrade(t: Trade, cash: real, holdings: Holdings): (real, Holdings) {
    var moved := holdings[t.symbol := Quantity(holdings, t.symbol) + Signed(t)];
    (cash + Flow(t),
     if -DUST_QUANTITY < Shares(moved[t.symbol]) < DUST_QUANTITY then moved - {t.symbol} else moved)
  }

  // ---- the plain reading of a log: sums, in no particular order

  function Cash(trades: seq<Trade>): real {
    if trades == [] then STARTING_BALANCE else Cash(trades[..|trades| - 1]) + Flow(trades[|trades| - 1])
  }

  function Net(trades: seq<Trade>, symbol: Symbol): int {
    if trades == [] then 0
    else
      var last := trades[|trades| - 1];
      Net(trades[..|trades| - 1], symbol) + if last.symbol == symbol then Signed(last) else 0
  }

  function Traded(trades: seq<Trade>): set<Symbol> {
    set t | t in trades :: t.symbol
  }

  function NetHoldings(trades: seq<Trade>): Holdings {
    map s | s in Traded(trades) && Net(trades, s) != 0 :: Net(trades, s)
  }

  function Upto(trades: seq<Trade>, date: int): seq<Trade> {
    if trades == [] then []
    else
      var last := trades[|trades| - 1];
      Upto(trades[..|trades| - 1], date) + if Day(last.executedAt) <= date then [last] else []
  }

  lemma {:induction false} NetOfUntraded(trades: seq<Trade>, symbol: Symbol)
    requires symbol !in Traded(trades)
    ensures Net(trades, symbol) == 0
  {
    if trades != [] {
      var last := |trades| - 1;
      assert trades[last].symbol in Traded(trades);
      assert forall t :: t in trades[..last] ==> t in trades;
      NetOfUntraded(trades[..last], symbol);
    }
  }

  /** A key is present exactly for a nonzero signed sum. */
  ghost predicate Holds(holdings: Holdings, trades: seq<Trade>) {
    forall s :: (s in holdings <==> Net(trades, s) != 0) && (s in holdings ==> holdings[s] == Net(trades, s))
  }

  lemma NetHoldingsHold(trades: seq<Trade>)
    ensures Holds(NetHoldings(trades), trades)
  {
    forall s ensures s in NetHoldings(trades) <==> Net(trades, s) != 0 {
      if s !in Traded(trades) {
        NetOfUntraded(trades, s);
      }
    }
  }

  lemma HoldsIsNetHoldings(holdings: Holdings, trades: seq<Trade>)
    requires Holds(holdings, trades)
    ensures holdings == NetHoldings(trades)
  {
    NetHoldingsHold(trades);
    assert holdings.Keys == NetHoldings(trades).Keys;
  }

  /** The dust rule drops a holding exactly when its ticks cancel, so folding trades keeps the sums. */
  lemma ApplyTradeHolds(t: Trade, cash: real, holdings: Holdings, trades: seq<Trade>)
    requires Holds(holdings, trades) && cash == Cash(trades)
    ensures var (c, h) := ApplyTrade(t, cash, holdings);
            c == Cash(trades + [t]) && Holds(h, trades + [t])
  {
    assert (trades + [t])[..|trades|] == trades;
    assert forall s :: Net(trades + [t], s) == Net(trades, s) + if t.symbol == s then Signed(t) else 0;
  }

  // ---- order does not matter

  lemma {:induction false} CashSplit(trades: seq<Trade>, i: nat)
    requires i < |trades|
    ensures Cash(trades) == Cash(trades[..i] + trades[i + 1..]) + Flow(trades[i])
    ensures forall s :: Net(trades, s) == Net(trades[..i] + trades[i + 1..], s)
                                          + if trades[i].symbol == s then Signed(trades[i]) else 0
  {
    var last := |trades| - 1;
    if i == last {
      assert trades[..i] + trades[i + 1..] == trades[..last];
    } else {
      CashSplit(trades[..last], i);
      var rest := trades[..i] + trades[i + 1..];
      assert rest[..|rest| - 1] == trades[..last][..i] + trades[..last][i + 1..];
      assert rest[|rest| - 1] == trades[last];
    }
  }

  lemma RemoveMatching(a: seq<Trade>, b: seq<Trade>) returns (i: nat)
    requires multiset(a) == multiset(b) && a != []
    ensures i < |b| && b[i] == a[|a| - 1]
    ensures multiset(a[..|a| - 1]) == multiset(b[..i] + b[i + 1..])
  {
    var last := |a| - 1;
    assert a[last] in multiset(b);
    i :| 0 <= i < |b| && b[i] == a[last];
    assert a == a[..last] + [a[last]];
    assert b == b[..i] + ([b[i]] + b[i + 1..]);
    calc {
      multiset(a[..last]);
      multiset(a) - multiset{a[last]};
      multiset(b) - multiset{b[i]};
      multiset(b[..i]) + multiset(b[i + 1..]);
      multiset(b[..i] + b[i + 1..]);
    }
  }

  /** Permuting a log changes neither its cash nor any of its holdings. */
  lemma {:induction false} SumsIgnoreOrder(a: seq<Trade>, b: seq<Trade>)
    requires multiset(a) == multiset(b)
    ensures Cash(a) == Cash(b)
    ensures forall s :: Net(a, s) == Net(b, s)
    decreases |a|
  {
    if a == [] {
      assert |multiset(b)| == 0;
    } else {
      var i := RemoveMatching(a, b);
      SumsIgnoreOrder(a[..|a| - 1], b[..i] + b[i + 1..]);
      CashSplit(b, i);
    }
  }

  lemma {:induction false} UptoCounts(trades: seq<Trade>, date: int, t: Trade)
    ensures multiset(Upto(trades, date))[t] == if Day(t.executedAt) <= date then multiset(trades)[t] else 0
  {
    if trades != [] {
      var last := |trades| - 1;
      UptoCounts(trades[..last], date, t);
      assert trades == trades[..last] + [trades[last]];
    }
  }

  lemma UptoIgnoresOrder(a: seq<Trade>, b: seq<Trade>, date: int)
    requires multiset(a) == multiset(b)
    ensures multiset(Upto(a, date)) == multiset(Upto(b, date))
  {
    forall t ensures multiset(Upto(a, date))[t] == multiset(Upto(b, date))[t] {
      UptoCounts(a, date, t);
      UptoCounts(b, date, t);
    }
  }

  // ---- sort.SliceStable by day

  ghost predicate ByDay(trades: seq<Trade>) {
    forall i, j :: 0 <= i < j < |trades| ==> Day(trades[i].executedAt) <= Day(trades[j].executedAt)
  }

  function InsertByDay(sorted: seq<Trade>, t: Trade): (r: seq<Trade>)
    requires ByDay(sorted)
    ensures ByDay(r) && |r| == |sorted| + 1
    ensures forall x :: x in r ==> x == t || x in sorted
  {
    if sorted == [] || Day(sorted[|sorted| - 1].executedAt) <= Day(t.executedAt) then sorted + [t]
    else
      var last := sorted[|sorted| - 1];
      var shorter := InsertByDay(sorted[..|sorted| - 1], t);
      assert forall x :: x in shorter ==> Day(x.executedAt) <= Day(last.executedAt);
      shorter + [last]
  }

  lemma {:induction false} InsertByDayPermutes(sorted: seq<Trade>, t: Trade)
    requires ByDay(sorted)
    ensures multiset(InsertByDay(sorted, t)) == multiset(sorted) + multiset{t}
  {
    if sorted != [] && Day(sorted[|sorted| - 1].executedAt) > Day(t.executedAt) {
      var front, last := sorted[..|sorted| - 1], sorted[|sorted| - 1];
      InsertByDayPermutes(front, t);
      assert InsertByDay(sorted, t) == InsertByDay(front, t) + [last];
      assert sorted == front + [last];
    }
  }

  function SortByDay(trades: seq<Trade>): (r: seq<Trade>)
    ensures ByDay(r) && |r| == |trades|
  {
    if trades == [] then [] else InsertByDay(SortByDay(trades[..|trades| - 1]), trades[|trades| - 1])
  }

  lemma {:induction false} SortByDayPermutes(trades: seq<Trade>)
    ensures multiset(SortByDay(trades)) == multiset(trades)
  {
    if trades != [] {
      var last := |trades| - 1;
      SortByDayPermutes(trades[..last]);
      InsertByDayPermutes(SortByDay(trades[..last]), trades[last]);
      assert trades == trades[..last] + [trades[last]];
    }
  }

  lemma {:induction false} UptoOfSorted(ordered: seq<Trade>, next: nat, date: int)
    requires next <= |ordered|
    requires forall i :: 0 <= i < next ==> Day(ordered[i].executedAt) <= date
    requires forall i :: next <= i < |ordered| ==> Day(ordered[i].executedAt) > date
    ensures Upto(ordered, date) == ordered[..next]
  {
    if ordered != [] {
      var last := |ordered| - 1;
      if next == |ordered| {
        UptoOfSorted(ordered[..last], last, date);
        assert ordered == ordered[..last] + [ordered[last]];
      } else {
        UptoOfSorted(ordered[..last], next, date);
        assert ordered[..last][..next] == ordered[..next];
      }
    }
  }

  /** What has been applied when the loop reaches a date, against the plain reading up to that date. */
  lemma AppliedIsUpto(trades: seq<Trade>, ordered: seq<Trade>, next: nat, date: int)
    requires multiset(ordered) == multiset(trades) && next <= |ordered|
    requires forall i :: 0 <= i < next ==> Day(ordered[i].executedAt) <= date
    requires forall i :: next <= i < |ordered| ==> Day(ordered[i].executedAt) > date
    ensures Cash(ordered[..next]) == Cash(Upto(trades, date))
    ensures forall s :: Net(ordered[..next], s) == Net(Upto(trades, date), s)
  {
    UptoOfSorted(ordered, next, date);
    UptoIgnoresOrder(ordered, trades, date);
    SumsIgnoreOrder(ordered[..next], Upto(trades, date));
  }

  // ---- closes

  /** The bar that closes a day: its latest, the later one in the list among equals. */
  function DayClose(bars: seq<Bar>, day: int): Option<Bar> {
    if bars == [] then None
    else
      var b := bars[|bars| - 1];
      var prev := DayClose(bars[..|bars| - 1], day);
      if Day(b.timestamp) == day && (prev.None? || prev.value.timestamp <= b.timestamp) then Some(b) else prev
  }

  lemma {:induction false} DayCloseIsLatest(bars: seq<Bar>, day: int)
    ensures var r := DayClose(bars, day);
            && (r.Some? ==> r.value in bars && Day(r.value.timestamp) == day)
            && forall b :: b in bars && Day(b.timestamp) == day ==> r.Some? && b.timestamp <= r.value.timestamp
  {
    if bars != [] {
      var last := |bars| - 1;
      DayCloseIsLatest(bars[..last], day);
      assert bars == bars[..last] + [bars[last]];
    }
  }

  lemma DayCloseStep(bars: seq<Bar>, i: nat, day: int)
    requires i < |bars|
    ensures var b, prev := bars[i], DayClose(bars[..i], day);
            DayClose(bars[..i + 1], day)
            == if Day(b.timestamp) == day && (prev.None? || prev.value.timestamp <= b.timestamp) then Some(b) else prev
  {
    assert bars[..i + 1][..i] == bars[..i];
  }

  function ClosesOfBars(bars: seq<Bar>): map<int, real> {
    map d | d in (set b | b in bars :: Day(b.timestamp)) && DayClose(bars, d).Some? :: DayClose(bars, d).value.close
  }

  /** Closing prices by symbol and day. */
  function ClosesOf(barsBySymbol: map<Symbol, seq<Bar>>): Closes {
    map s | s in barsBySymbol :: ClosesOfBars(barsBySymbol[s])
  }

  ghost predicate IndexesBars(closes: map<int, real>, latest: map<int, Time>, bars: seq<Bar>) {
    forall d :: match DayClose(bars, d)
      case None => d !in closes && d !in latest
      case Some(b) => d in closes && d in latest && closes[d] == b.close && latest[d] == b.timestamp
  }

  lemma IndexesAllBars(closes: map<int, real>, latest: map<int, Time>, bars: seq<Bar>)
    requires IndexesBars(closes, latest, bars)
    ensures closes == ClosesOfBars(bars)
  {
    forall d ensures d in closes <==> d in ClosesOfBars(bars) {
      DayCloseIsLatest(bars, d);
    }
    assert closes.Keys == ClosesOfBars(bars).Keys;
  }

  method ClosesOfSymbol(bars: seq<Bar>) returns (closes: map<int, real>)
    ensures closes == ClosesOfBars(bars)
  {
    closes := map[];
    var latest: map<int, Time> := map[];
    for i := 0 to |bars|
      invariant IndexesBars(closes, latest, bars[..i])
    {
      var b := bars[i];
      var day := Day(b.timestamp);
      forall d ensures DayClose(bars[..i + 1], d) == if d == day && (d !in latest || latest[d] <= b.timestamp)
                                                     then Some(b) else DayClose(bars[..i], d)
      {
        DayCloseStep(bars, i, d);
      }
      if day in latest && b.timestamp < latest[day] {
        continue;
      }
      latest := latest[day := b.timestamp];
      closes := closes[day := b.close];
    }
    assert bars[..|bars|] == bars;
    IndexesAllBars(closes, latest, bars);
  }

  method ClosesBySymbolAndDay(barsBySymbol: map<Symbol, seq<Bar>>) returns (closes: Closes)
    ensures closes == ClosesOf(barsBySymbol)
  {
    closes := map[];
    var left := barsBySymbol.Keys;
    while left != {}
      invariant left <= barsBySymbol.Keys && closes.Keys == barsBySymbol.Keys - left
      invariant forall s :: s in closes ==> closes[s] == ClosesOfBars(barsBySymbol[s])
    {
      var symbol :| symbol in left;
      var ofSymbol := ClosesOfSymbol(barsBySymbol[symbol]);
      closes := closes[symbol := ofSymbol];
      left := left - {symbol};
    }
  }

  // ---- the curve

  ghost predicate DatesAscend(calendar: seq<int>) {
    forall i, j :: 0 <= i < j < |calendar| ==> calendar[i] <= calendar[j]
  }

  function FirstDay(trades: seq<Trade>): (d: int)
    requires trades != []
    ensures exists t :: t in trades && Day(t.executedAt) == d
    ensures forall t :: t in trades ==> d <= Day(t.executedAt)
  {
    var last := |trades| - 1;
    var d := Day(trades[last].executedAt);
    assert trades == trades[..last] + [trades[last]];
    if last == 0 then assert trades[0] in trades; d
    else var e := FirstDay(trades[..last]); if d < e then d else e
  }

  lemma FirstDayOfSorted(trades: seq<Trade>, ordered: seq<Trade>)
    requires trades != [] && multiset(ordered) == multiset(trades) && ByDay(ordered)
    ensures ordered != [] && Day(ordered[0].executedAt) == FirstDay(trades)
  {
    assert trades[0] in multiset(ordered);
    assert ordered[0] in multiset(trades);
    var t :| t in trades && Day(t.executedAt) == FirstDay(trades);
    assert t in multiset(ordered);
  }

  /** The calendar dates the curve covers: those not before the first trade. */
  function Window(calendar: seq<int>, first: int): seq<int> {
    if calendar == [] then []
    else
      var last := calendar[|calendar| - 1];
      Window(calendar[..|calendar| - 1], first) + if first <= last then [last] else []
  }

  predicate Priced(closes: Closes, symbol: Symbol, date: int) {
    symbol in closes && date in closes[symbol]
  }

  function CloseOn(closes: Closes, symbol: Symbol, date: int): real {
    if Priced(closes, symbol, date) then closes[symbol][date] else 0.0
  }

  function Worth(symbols: seq<Symbol>, holdings: Holdings, closes: Closes, date: int): real {
    if symbols == [] then 0.0
    else
      var last := symbols[|symbols| - 1];
      Worth(symbols[..|symbols| - 1], holdings, closes, date)
      + Amount(CloseOn(closes, last, date), Quantity(holdings, last))
  }

  function Equity(cash: real, holdings: Holdings, closes: Closes, date: int): real {
    cash + Worth(SortedKeys(holdings.Keys), holdings, closes, date)
  }

  function CashOn(trades: seq<Trade>, date: int): real {
    Cash(Upto(trades, date))
  }

  function HoldingsOn(trades: seq<Trade>, date: int): Holdings {
    NetHoldings(Upto(trades, date))
  }

  function UnpricedIn(symbols: seq<Symbol>, closes: Closes, date: int): Option<Symbol> {
    if symbols == [] then None
    else
      var earlier := UnpricedIn(symbols[..|symbols| - 1], closes, date);
      var last := symbols[|symbols| - 1];
      if earlier.Some? then earlier else if Priced(closes, last, date) then None else Some(last)
  }

  function EquityOn(trades: seq<Trade>, closes: Closes, date: int): real {
    Equity(CashOn(trades, date), HoldingsOn(trades, date), closes, date)
  }

  /** A date's equity, or the first held symbol that has no close on it. */
  function ValuedOn(trades: seq<Trade>, closes: Closes, date: int): Result<real, MissingClose> {
    var unpriced := UnpricedIn(SortedKeys(HoldingsOn(trades, date).Keys), closes, date);
    if unpriced.Some? then Err(MissingClose(unpriced.value, date)) else Ok(EquityOn(trades, closes, date))
  }

  function Valuer(trades: seq<Trade>, closes: Closes): int -> Result<real, MissingClose> {
    date => ValuedOn(trades, closes, date)
  }

  /** The earliest date of the window on which some held symbol has no close, and its first such symbol. */
  function FirstGap(valued: int -> Result<real, MissingClose>, window: seq<int>): Option<MissingClose> {
    if window == [] then None
    else
      var earlier := FirstGap(valued, window[..|window| - 1]);
      var last := valued(window[|window| - 1]);
      if earlier.Some? then earlier else if last.Err? then Some(last.error) else None
  }

  function EquityCurve(trades: seq<Trade>, closes: Closes, dates: seq<int>): (c: seq<real>)
    ensures |c| == |dates|
  {
    seq(|dates|, i requires 0 <= i < |dates| => EquityOn(trades, closes, dates[i]))
  }

  function CashCurve(trades: seq<Trade>, dates: seq<int>): (c: seq<real>)
    ensures |c| == |dates|
  {
    seq(|dates|, i requires 0 <= i < |dates| => CashOn(trades, dates[i]))
  }

  /** The history a log implies, date by date and independently of the order of the log. */
  function Reconstructed(trades: seq<Trade>, closes: Closes, calendar: seq<int>): Result<Reconstruction, MissingClose> {
    if trades == [] || calendar == [] then Ok(Reconstruction([], [], [], map[]))
    else
      var window := Window(calendar, FirstDay(trades));
      var gap := FirstGap(Valuer(trades, closes), window);
      if gap.Some? then Err(gap.value)
      else Ok(Reconstruction(window, EquityCurve(trades, closes, window), CashCurve(trades, window),
                             if window == [] then map[] else HoldingsOn(trades, window[|window| - 1])))
  }

  lemma {:induction false} WindowMembers(calendar: seq<int>, first: int)
    requires DatesAscend(calendar)
    ensures DatesAscend(Window(calendar, first))
    ensures forall d :: d in Window(calendar, first) <==> d in calendar && first <= d
  {
    if calendar != [] {
      var last := |calendar| - 1;
      WindowMembers(calendar[..last], first);
      assert calendar == calendar[..last] + [calendar[last]];
      var w := Window(calendar[..last], first);
      forall i | 0 <= i < |w| ensures w[i] <= calendar[last] { assert w[i] in w && w[i] in calendar[..last]; }
    }
  }

  lemma SymbolStep(symbols: seq<Symbol>, k: nat, holdings: Holdings, closes: Closes, date: int)
    requires k < |symbols|
    ensures Worth(symbols[..k + 1], holdings, closes, date)
            == Worth(symbols[..k], holdings, closes, date)
               + Amount(CloseOn(closes, symbols[k], date), Quantity(holdings, symbols[k]))
    ensures UnpricedIn(symbols[..k], closes, date) == None ==>
              UnpricedIn(symbols[..k + 1], closes, date)
              == if Priced(closes, symbols[k], date) then None else Some(symbols[k])
  {
    assert symbols[..k + 1][..k] == symbols[..k];
  }

  /** One date's valuation: the sum over the holdings, or the first of them without a close. */
  method MarkToMarket(cash: real, symbols: seq<Symbol>, holdings: Holdings, closes: Closes, date: int)
    returns (r: Result<real, MissingClose>)
    requires forall s :: s in symbols ==> s in holdings
    ensures var unpriced := UnpricedIn(symbols, closes, date);
            r == if unpriced.Some? then Err(MissingClose(unpriced.value, date))
                 else Ok(cash + Worth(symbols, holdings, closes, date))
  {
    var equity := cash;
    for k := 0 to |symbols|
      invariant UnpricedIn(symbols[..k], closes, date) == None
      invariant equity == cash + Worth(symbols[..k], holdings, closes, date)
    {
      var symbol := symbols[k];
      SymbolStep(symbols, k, holdings, closes, date);
      if symbol !in closes || date !in closes[symbol] {
        UnpricedStays(symbols, k + 1, closes, date);
        return Err(MissingClose(symbol, date));
      }
      equity := equity + Amount(closes[symbol][date], holdings[symbol]);
    }
    assert symbols[..|symbols|] == symbols;
    return Ok(equity);
  }

  lemma {:induction false} UnpricedStays(symbols: seq<Symbol>, k: nat, closes: Closes, date: int)
    requires k <= |symbols| && UnpricedIn(symbols[..k], closes, date).Some?
    ensures UnpricedIn(symbols, closes, date) == UnpricedIn(symbols[..k], closes, date)
    decreases |symbols|
  {
    if k == |symbols| {
      assert symbols[..k] == symbols;
    } else {
      var last := |symbols| - 1;
      assert symbols[..last][..k] == symbols[..k];
      UnpricedStays(symbols[..last], k, closes, date);
    }
  }

  lemma {:induction false} GapStays(valued: int -> Result<real, MissingClose>, window: seq<int>, k: nat)
    requires k <= |window| && FirstGap(valued, window[..k]).Some?
    ensures FirstGap(valued, window) == FirstGap(valued, window[..k])
    decreases |window|
  {
    if k == |window| {
      assert window[..k] == window;
    } else {
      var last := |window| - 1;
      assert window[..last][..k] == window[..k];
      GapStays(valued, window[..last], k);
    }
  }

  lemma WindowStep(calendar: seq<int>, i: nat, first: int)
    requires i < |calendar|
    ensures Window(calendar[..i + 1], first)
            == Window(calendar[..i], first) + if first <= calendar[i] then [calendar[i]] else []
  {
    assert calendar[..i + 1][..i] == calendar[..i];
  }

  /** The fold has applied exactly the trades up to the last date emitted, and none before the first. */
  ghost predicate Applied(ordered: seq<Trade>, next: nat, cash: real, holdings: Holdings, dates: seq<int>) {
    && next <= |ordered|
    && cash == Cash(ordered[..next]) && Holds(holdings, ordered[..next])
    && (dates == [] ==> next == 0)
    && forall i :: 0 <= i < next ==> dates != [] && Day(ordered[i].executedAt) <= dates[|dates| - 1]
  }

  ghost predicate CurveSoFar(trades: seq<Trade>, closes: Closes, dates: seq<int>, equity: seq<real>, cash: seq<real>) {
    && FirstGap(Valuer(trades, closes), dates) == None
    && |equity| == |cash| == |dates|
    && forall i :: 0 <= i < |dates| ==> cash[i] == CashOn(trades, dates[i]) && equity[i] == EquityOn(trades, closes, dates[i])
  }

  lemma FirstGapStep(valued: int -> Result<real, MissingClose>, dates: seq<int>, date: int)
    requires FirstGap(valued, dates) == None
    ensures FirstGap(valued, dates + [date]) == if valued(date).Err? then Some(valued(date).error) else None
  {
    assert (dates + [date])[..|dates|] == dates;
  }

  /** What the inner loop leaves behind on a date is the plain reading of the log up to that date. */
  lemma StateOnDate(trades: seq<Trade>, ordered: seq<Trade>, next: nat, cash: real, holdings: Holdings, date: int)
    requires multiset(ordered) == multiset(trades) && ByDay(ordered) && next <= |ordered|
    requires cash == Cash(ordered[..next]) && Holds(holdings, ordered[..next])
    requires forall i :: 0 <= i < next ==> Day(ordered[i].executedAt) <= date
    requires next < |ordered| ==> Day(ordered[next].executedAt) > date
    ensures cash == CashOn(trades, date) && holdings == HoldingsOn(trades, date)
  {
    AppliedIsUpto(trades, ordered, next, date);
    HoldsIsNetHoldings(holdings, Upto(trades, date));
  }

  lemma PrefixIsWindow(calendar: seq<int>, i: nat, first: int, valued: int -> Result<real, MissingClose>)
    requires i <= |calendar| && FirstGap(valued, Window(calendar[..i], first)).Some?
    ensures FirstGap(valued, Window(calendar, first)) == FirstGap(valued, Window(calendar[..i], first))
    decreases |calendar| - i
  {
    if i < |calendar| {
      WindowStep(calendar, i, first);
      var w, v := Window(calendar[..i], first), Window(calendar[..i + 1], first);
      assert v[..|w|] == w;
      GapStays(valued, v, |w|);
      PrefixIsWindow(calendar, i + 1, first, valued);
    } else {
      assert calendar[..i] == calendar;
    }
  }

  method ApplyThrough(ordered: seq<Trade>, from: nat, date: int, cash0: real, holdings0: Holdings)
    returns (next: nat, cash: real, holdings: Holdings)
    requires from <= |ordered| && cash0 == Cash(ordered[..from]) && Holds(holdings0, ordered[..from])
    requires forall i :: 0 <= i < from ==> Day(ordered[i].executedAt) <= date
    ensures from <= next <= |ordered| && cash == Cash(ordered[..next]) && Holds(holdings, ordered[..next])
    ensures forall i :: 0 <= i < next ==> Day(ordered[i].executedAt) <= date
    ensures next < |ordered| ==> Day(ordered[next].executedAt) > date
  {
    hide ApplyTrade, Cash, Net, Holds;
    next, cash, holdings := from, cash0, holdings0;
    while next < |ordered| && Day(ordered[next].executedAt) <= date
      invariant from <= next <= |ordered| && cash == Cash(ordered[..next]) && Holds(holdings, ordered[..next])
      invariant forall i :: 0 <= i < next ==> Day(ordered[i].executedAt) <= date
    {
      ApplyTradeHolds(ordered[next], cash, holdings, ordered[..next]);
      assert ordered[..next + 1] == ordered[..next] + [ordered[next]];
      var (c, h) := ApplyTrade(ordered[next], cash, holdings);
      cash, holdings := c, h;
      next := next + 1;
    }
  }

  /** One turn of the loop: roll forward to the date, then value what is held. */
  method OnDate(ghost trades: seq<Trade>, ordered: seq<Trade>, from: nat, date: int, cash0: real, holdings0: Holdings,
                closes: Closes)
    returns (next: nat, cash: real, holdings: Holdings, equity: Result<real, MissingClose>)
    requires multiset(ordered) == multiset(trades) && ByDay(ordered)
    requires from <= |ordered| && cash0 == Cash(ordered[..from]) && Holds(holdings0, ordered[..from])
    requires forall i :: 0 <= i < from ==> Day(ordered[i].executedAt) <= date
    ensures Applied(ordered, next, cash, holdings, [date])
    ensures cash == CashOn(trades, date) && holdings == HoldingsOn(trades, date)
    ensures equity == ValuedOn(trades, closes, date)
  {
    hide Holds, Cash, CashOn, HoldingsOn, Worth, UnpricedIn;
    next, cash, holdings := ApplyThrough(ordered, from, date, cash0, holdings0);
    StateOnDate(trades, ordered, next, cash, holdings, date);
    equity := MarkToMarket(cash, SortedKeys(holdings.Keys), holdings, closes, date);
  }

  lemma CurveGrows(trades: seq<Trade>, closes: Closes, dates: seq<int>, equity: seq<real>, cash: seq<real>,
                   date: int, value: real)
    requires CurveSoFar(trades, closes, dates, equity, cash)
    requires ValuedOn(trades, closes, date) == Ok(value)
    ensures CurveSoFar(trades, closes, dates + [date], equity + [value], cash + [CashOn(trades, date)])
  {
    FirstGapStep(Valuer(trades, closes), dates, date);
  }

  lemma GapEndsIt(trades: seq<Trade>, closes: Closes, calendar: seq<int>, k: nat)
    requires trades != [] && k < |calendar|
    requires var w := Window(calendar[..k], FirstDay(trades));
             && FirstGap(Valuer(trades, closes), w) == None && FirstDay(trades) <= calendar[k]
             && ValuedOn(trades, closes, calendar[k]).Err?
    ensures Reconstructed(trades, closes, calendar) == Err(ValuedOn(trades, closes, calendar[k]).error)
  {
    WindowStep(calendar, k, FirstDay(trades));
    FirstGapStep(Valuer(trades, closes), Window(calendar[..k], FirstDay(trades)), calendar[k]);
    PrefixIsWindow(calendar, k + 1, FirstDay(trades), Valuer(trades, closes));
  }

  lemma CurveIsReconstructed(trades: seq<Trade>, closes: Closes, calendar: seq<int>, r: Reconstruction)
    requires trades != [] && calendar != [] && r.dates == Window(calendar, FirstDay(trades))
    requires CurveSoFar(trades, closes, r.dates, r.equity, r.cash)
    requires r.holdings == if r.dates == [] then map[] else HoldingsOn(trades, r.dates[|r.dates| - 1])
    ensures Reconstructed(trades, closes, calendar) == Ok(r)
  {
    assert r.equity == EquityCurve(trades, closes, r.dates);
    assert r.cash == CashCurve(trades, r.dates);
  }

  /** The daily curve of a trade log. The calendar must ascend; nothing else is asked of the inputs. */
  method Reconstruct(trades: seq<Trade>, barsBySymbol: map<Symbol, seq<Bar>>, calendar: seq<int>)
    returns (r: Result<Reconstruction, MissingClose>)
    requires DatesAscend(calendar)
    ensures r == Reconstructed(trades, ClosesOf(barsBySymbol), calendar)
  {
    hide ValuedOn, SortByDay, ClosesOf, CashOn, HoldingsOn, EquityOn, Valuer, FirstDay;
    if trades == [] || calendar == [] {
      return Ok(Reconstruction([], [], [], map[]));
    }
    var ordered := SortByDay(trades);
    SortByDayPermutes(trades);
    FirstDayOfSorted(trades, ordered);
    var closes := ClosesBySymbolAndDay(barsBySymbol);
    var firstTradeDay := Day(ordered[0].executedAt);
    var cash, holdings, next := STARTING_BALANCE, map[], 0;
    var out := Reconstruction([], [], [], map[]);
    for k := 0 to |calendar|
      invariant out.dates == Window(calendar[..k], firstTradeDay)
      invariant Applied(ordered, next, cash, holdings, out.dates)
      invariant CurveSoFar(trades, closes, out.dates, out.equity, out.cash)
      invariant out.dates != [] ==> k > 0 && out.dates[|out.dates| - 1] <= calendar[k - 1]
      invariant out.holdings == if out.dates == [] then map[] else HoldingsOn(trades, out.dates[|out.dates| - 1])
    {
      var date := calendar[k];
      WindowStep(calendar, k, firstTradeDay);
      if date < firstTradeDay {
        continue;
      }
      var equity;
      next, cash, holdings, equity := OnDate(trades, ordered, next, date, cash, holdings, closes);
      if equity.Err? {
        GapEndsIt(trades, closes, calendar, k);
        return Err(equity.error);
      }
      CurveGrows(trades, closes, out.dates, out.equity, out.cash, date, equity.value);
      out := Reconstruction(out.dates + [date], out.equity + [equity.value], out.cash + [cash], holdings);
    }
    assert calendar[..|calendar|] == calendar;
    CurveIsReconstructed(trades, closes, calendar, out);
    return Ok(out);
  }

  // ---- when it refuses

  lemma {:induction false} UnpricedMeans(symbols: seq<Symbol>, closes: Closes, date: int)
    ensures var u := UnpricedIn(symbols, closes, date);
            && (u.Some? ==> u.value in symbols && !Priced(closes, u.value, date))
            && (u.None? <==> forall s :: s in symbols ==> Priced(closes, s, date))
  {
    if symbols != [] {
      UnpricedMeans(symbols[..|symbols| - 1], closes, date);
      assert symbols == symbols[..|symbols| - 1] + [symbols[|symbols| - 1]];
    }
  }

  ghost predicate FullyPriced(trades: seq<Trade>, closes: Closes, date: int) {
    forall s :: s in HoldingsOn(trades, date) ==> Priced(closes, s, date)
  }

  lemma {:induction false} GapMeans(valued: int -> Result<real, MissingClose>, window: seq<int>)
    ensures var gap := FirstGap(valued, window);
            && (gap.Some? ==> exists d :: d in window && valued(d).Err? && valued(d).error == gap.value)
            && (gap.None? <==> forall d :: d in window ==> valued(d).Ok?)
  {
    if window != [] {
      var last := window[|window| - 1];
      GapMeans(valued, window[..|window| - 1]);
      assert window == window[..|window| - 1] + [last];
      assert last in window;
    }
  }

  lemma ValuedMeans(trades: seq<Trade>, closes: Closes, date: int)
    ensures var v := ValuedOn(trades, closes, date);
            && (v.Ok? <==> FullyPriced(trades, closes, date))
            && (v.Err? ==> v.error.date == date && v.error.symbol in HoldingsOn(trades, date)
                           && !Priced(closes, v.error.symbol, date))
  {
    UnpricedMeans(SortedKeys(HoldingsOn(trades, date).Keys), closes, date);
  }

  /** Reconstruction fails exactly when, on some calendar date from the first trade on, a symbol held
      that day has no close that day; and the close it names is one of those. */
  lemma ReconstructFailsIff(trades: seq<Trade>, closes: Closes, calendar: seq<int>)
    requires DatesAscend(calendar) && trades != []
    ensures var r := Reconstructed(trades, closes, calendar);
            && (r.Err? <==> exists d :: d in calendar && FirstDay(trades) <= d && !FullyPriced(trades, closes, d))
            && (r.Err? ==> && r.error.date in calendar && FirstDay(trades) <= r.error.date
                           && r.error.symbol in HoldingsOn(trades, r.error.date)
                           && !Priced(closes, r.error.symbol, r.error.date))
  {
    if calendar != [] {
      WindowMembers(calendar, FirstDay(trades));
      GapMeans(Valuer(trades, closes), Window(calendar, FirstDay(trades)));
      forall d { ValuedMeans(trades, closes, d); }
    }
  }

  lemma HeldWasTraded(trades: seq<Trade>, d: int)
    ensures HoldingsOn(trades, d).Keys <= Traded(trades)
  {
    forall s | s in HoldingsOn(trades, d) ensures s in Traded(trades) {
      var t :| t in Upto(trades, d) && t.symbol == s;
      UptoCounts(trades, d, t);
      assert t in multiset(Upto(trades, d));
      assert t in multiset(trades);
    }
  }

  // ---- the log's order is immaterial

  lemma HoldingsIgnoreOrder(a: seq<Trade>, b: seq<Trade>)
    requires multiset(a) == multiset(b)
    ensures NetHoldings(a) == NetHoldings(b) && Cash(a) == Cash(b)
  {
    SumsIgnoreOrder(a, b);
    NetHoldingsHold(a);
    HoldsIsNetHoldings(NetHoldings(a), b);
  }

  lemma {:induction false} GapDependsOnValues(f: int -> Result<real, MissingClose>, g: int -> Result<real, MissingClose>,
                                              window: seq<int>)
    requires forall d :: f(d) == g(d)
    ensures FirstGap(f, window) == FirstGap(g, window)
  {
    if window != [] {
      GapDependsOnValues(f, g, window[..|window| - 1]);
    }
  }

  lemma FirstDayIgnoresOrder(a: seq<Trade>, b: seq<Trade>)
    requires multiset(a) == multiset(b) && a != [] && b != []
    ensures FirstDay(a) == FirstDay(b)
  {
    var d, e := FirstDay(a), FirstDay(b);
    var x :| x in a && Day(x.executedAt) == d;
    var y :| y in b && Day(y.executedAt) == e;
    assert x in multiset(b) && y in multiset(a);
  }

  lemma ValuesIgnoreOrder(a: seq<Trade>, b: seq<Trade>, closes: Closes, d: int)
    requires multiset(a) == multiset(b)
    ensures CashOn(a, d) == CashOn(b, d) && HoldingsOn(a, d) == HoldingsOn(b, d)
    ensures ValuedOn(a, closes, d) == ValuedOn(b, closes, d) && EquityOn(a, closes, d) == EquityOn(b, closes, d)
  {
    UptoIgnoresOrder(a, b, d);
    HoldingsIgnoreOrder(Upto(a, d), Upto(b, d));
  }

  /** However a log is permuted, across days or within one, the reconstruction is the same. */
  lemma ReconstructionIgnoresOrder(a: seq<Trade>, b: seq<Trade>, closes: Closes, calendar: seq<int>)
    requires multiset(a) == multiset(b)
    ensures Reconstructed(a, closes, calendar) == Reconstructed(b, closes, calendar)
  {
    hide ValuedOn, FirstDay, Window, FirstGap, CashOn, HoldingsOn, EquityOn;
    assert |multiset(a)| == |multiset(b)|;
    if a != [] && calendar != [] {
      FirstDayIgnoresOrder(a, b);
      var window := Window(calendar, FirstDay(a));
      forall d { ValuesIgnoreOrder(a, b, closes, d); }
      GapDependsOnValues(Valuer(a, closes), Valuer(b, closes), window);
      assert EquityCurve(a, closes, window) == EquityCurve(b, closes, window);
      assert CashCurve(a, window) == CashCurve(b, window);
    }
  }

  /** A history whose last point is the plain reading of the log up to its last date. */
  ghost predicate EndsAsLog(r: Reconstruction, trades: seq<Trade>) {
    && |r.cash| == |r.equity| == |r.dates|
    && (r.dates != [] ==> var last := |r.dates| - 1;
          r.cash[last] == CashOn(trades, r.dates[last]) && r.holdings == HoldingsOn(trades, r.dates[last]))
  }

  lemma ReconstructedEndsAsLog(trades: seq<Trade>, closes: Closes, calendar: seq<int>, r: Reconstruction)
    requires Reconstructed(trades, closes, calendar) == Ok(r)
    ensures EndsAsLog(r, trades)
  {
    if trades != [] && calendar != [] {
      assert r.cash == CashCurve(trades, Window(calendar, FirstDay(trades)));
    }
  }

  lemma CoversWindow(trades: seq<Trade>, closes: Closes, calendar: seq<int>, r: Reconstruction)
    requires trades != [] && calendar != [] && Reconstructed(trades, closes, calendar) == Ok(r)
    ensures r.dates == Window(calendar, FirstDay(trades))
  {}

  /** What a symbol's trades up to a date left, at its close on the date. */
  function LeftAt(trades: seq<Trade>, closes: Closes, date: int): string -> real {
    s => Amount(CloseOn(closes, s, date), Net(Upto(trades, date), s))
  }

  lemma {:induction false} WorthIsSum(symbols: seq<Symbol>, holdings: Holdings, closes: Closes, date: int,
                                      f: string -> real)
    requires forall s :: s in symbols ==> f(s) == Amount(CloseOn(closes, s, date), Quantity(holdings, s))
    ensures Worth(symbols, holdings, closes, date) == SumList(f, symbols)
  {
    if symbols != [] {
      hide Amount, CloseOn;
      var last := symbols[|symbols| - 1];
      assert last in symbols;
      WorthIsSum(symbols[..|symbols| - 1], holdings, closes, date, f);
    }
  }

  /** A point of the curve: the cash of the trades up to its date, and over every symbol they touched the shares they left
      at that date's close. */
  lemma EquityIsCashAndShares(trades: seq<Trade>, closes: Closes, date: int)
    ensures EquityOn(trades, closes, date)
            == Cash(Upto(trades, date)) + SumOver(LeftAt(trades, closes, date), Traded(Upto(trades, date)))
  {
    hide Amount, CloseOn, SortedKeys, Upto;
    var done, held := Upto(trades, date), HoldingsOn(trades, date);
    var f, symbols := LeftAt(trades, closes, date), SortedKeys(held.Keys);
    WorthIsSum(symbols, held, closes, date, f);
    SumListIsSumOver(f, symbols, held.Keys);
    forall s | s in Traded(done) - held.Keys ensures f(s) == 0.0 {
      NothingLeft(CloseOn(closes, s, date));
    }
    SumSkipsZeros(f, Traded(done), held.Keys);
  }

  lemma NothingLeft(close: real)
    ensures Amount(close, 0) == 0.0
  {}
}
