/** The days on which every symbol has a bar. */
module Calendar {
  import opened Wrappers
  import opened Market

  predicate HasDay(bars: seq<Bar>, day: int) {
    bars != [] && (Day(bars[|bars| - 1].timestamp) == day || HasDay(bars[..|bars| - 1], day))
  }

  lemma {:induction false} HasDayMeans(bars: seq<Bar>, day: int)
    ensures HasDay(bars, day) <==> exists b :: b in bars && Day(b.timestamp) == day
  {
    if bars != [] {
      HasDayMeans(bars[..|bars| - 1], day);
      assert bars == bars[..|bars| - 1] + [bars[|bars| - 1]];
    }
  }

  ghost predicate EverySymbolHas(barsBySymbol: map<Symbol, seq<Bar>>, day: int) {
    barsBySymbol.Keys != {} && forall s :: s in barsBySymbol ==> HasDay(barsBySymbol[s], day)
  }

  ghost predicate StrictlyAscending(days: seq<int>) {
    forall i, j :: 0 <= i < j < |days| ==> days[i] < days[j]
  }

  ghost predicate Lists(days: seq<int>, day: int) {
    days != [] && (days[|days| - 1] == day || Lists(days[..|days| - 1], day))
  }

  lemma {:induction false} ListsItsMembers(days: seq<int>, i: nat)
    requires i < |days|
    ensures Lists(days, days[i])
  {
    if i < |days| - 1 {
      ListsItsMembers(days[..|days| - 1], i);
    }
  }

  lemma ListsStep(days: seq<int>, day: int, d: int)
    ensures Lists(days + [day], d) <==> Lists(days, d) || d == day
  {
    assert (days + [day])[..|days|] == days;
  }

  /** Exactly the days every symbol has, in ascending order. */
  ghost predicate IsCalendar(dates: seq<int>, barsBySymbol: map<Symbol, seq<Bar>>) {
    StrictlyAscending(dates) && forall d :: Lists(dates, d) <==> EverySymbolHas(barsBySymbol, d)
  }

  // ---- there is only one such sequence

  ghost predicate SameDays(a: seq<int>, b: seq<int>) {
    forall d :: Lists(a, d) <==> Lists(b, d)
  }

  lemma {:induction false} LastIsGreatest(days: seq<int>, d: int)
    requires StrictlyAscending(days) && Lists(days, d)
    ensures d <= days[|days| - 1] && (Lists(days[..|days| - 1], d) ==> d < days[|days| - 1])
  {
    if Lists(days[..|days| - 1], d) {
      LastIsGreatest(days[..|days| - 1], d);
    }
  }

  lemma SameLast(a: seq<int>, b: seq<int>)
    requires StrictlyAscending(a) && StrictlyAscending(b) && SameDays(a, b) && a != [] && b != []
    ensures a[|a| - 1] == b[|b| - 1] && SameDays(a[..|a| - 1], b[..|b| - 1])
  {
    var x, y := a[|a| - 1], b[|b| - 1];
    assert Lists(a, x) && Lists(b, y);
    LastIsGreatest(a, y);
    LastIsGreatest(b, x);
    var earlierA, earlierB := a[..|a| - 1], b[..|b| - 1];
    forall d ensures Lists(earlierA, d) <==> Lists(earlierB, d) {
      assert Lists(a, d) <==> Lists(b, d);
      if Lists(a, d) {
        LastIsGreatest(a, d);
        LastIsGreatest(b, d);
      }
    }
  }

  lemma ListsSome(days: seq<int>)
    requires days != []
    ensures exists d :: Lists(days, d)
  {
    assert Lists(days, days[|days| - 1]);
  }

  lemma {:induction false} AscendingUnique(a: seq<int>, b: seq<int>)
    requires StrictlyAscending(a) && StrictlyAscending(b) && SameDays(a, b)
    ensures a == b
  {
    if a != [] && b != [] {
      SameLast(a, b);
      AscendingUnique(a[..|a| - 1], b[..|b| - 1]);
      assert a == a[..|a| - 1] + [a[|a| - 1]] && b == b[..|b| - 1] + [b[|b| - 1]];
    } else if a != [] {
      ListsSome(a);
    } else if b != [] {
      ListsSome(b);
    }
  }

  lemma CalendarUnique(a: seq<int>, b: seq<int>, barsBySymbol: map<Symbol, seq<Bar>>)
    requires IsCalendar(a, barsBySymbol) && IsCalendar(b, barsBySymbol)
    ensures a == b
  {
    assert SameDays(a, b);
    AscendingUnique(a, b);
  }

  // ---- counting distinct symbols per day

  /** A day as a map key. */
  datatype Date = Date(number: int)

  ghost predicate SeenBy(seen: map<Date, set<Symbol>>, day: int, symbol: Symbol) {
    Date(day) in seen && symbol in seen[Date(day)]
  }

  /** seen holds exactly the symbols handled so far that have a bar on each day. */
  ghost predicate Counts(seen: map<Date, set<Symbol>>, barsBySymbol: map<Symbol, seq<Bar>>, handled: set<Symbol>) {
    && (forall d, s :: SeenBy(seen, d, s) <==> s in handled && s in barsBySymbol && HasDay(barsBySymbol[s], d))
    && forall d :: d in seen ==> seen[d] <= barsBySymbol.Keys && seen[d] != {}
  }

  lemma DaysStep(bars: seq<Bar>, i: nat, d: int)
    requires i < |bars|
    ensures HasDay(bars[..i + 1], d) <==> HasDay(bars[..i], d) || d == Day(bars[i].timestamp)
  {
    assert bars[..i + 1][..i] == bars[..i];
  }

  lemma NoDayYet(bars: seq<Bar>)
    ensures forall d :: !HasDay(bars[..0], d)
  {}

  /** One symbol's bars, however many it has on a day, add it to that day once. */
  method SeeSymbol(symbol: Symbol, bars: seq<Bar>, seen0: map<Date, set<Symbol>>) returns (seen: map<Date, set<Symbol>>)
    ensures forall d, s :: SeenBy(seen, d, s) <==> SeenBy(seen0, d, s) || (s == symbol && HasDay(bars, d))
    ensures forall d :: d in seen ==> (d in seen0 && seen[d] <= seen0[d] + {symbol}) || seen[d] == {symbol}
    ensures forall d :: d in seen && (d in seen0 ==> seen0[d] != {}) ==> seen[d] != {}
  {
    hide HasDay;
    NoDayYet(bars);
    seen := seen0;
    for i := 0 to |bars|
      invariant forall d, s :: SeenBy(seen, d, s) <==> SeenBy(seen0, d, s) || (s == symbol && HasDay(bars[..i], d))
      invariant forall d :: d in seen ==> (d in seen0 && seen[d] <= seen0[d] + {symbol}) || seen[d] == {symbol}
      invariant forall d :: d in seen && (d in seen0 ==> seen0[d] != {}) ==> seen[d] != {}
    {
      var day := Day(bars[i].timestamp);
      forall d ensures HasDay(bars[..i + 1], d) <==> HasDay(bars[..i], d) || d == day {
        DaysStep(bars, i, d);
      }
      ghost var before := seen;
      seen := seen[Date(day) := if Date(day) in seen then seen[Date(day)] + {symbol} else {symbol}];
      assert forall d, s :: SeenBy(seen, d, s) <==> SeenBy(before, d, s) || (s == symbol && d == day);
    }
    assert bars[..|bars|] == bars;
  }

  /** A day is in the intersection exactly when as many symbols as there are were seen on it. */
  lemma FullCountMeansEvery(seen: map<Date, set<Symbol>>, barsBySymbol: map<Symbol, seq<Bar>>, day: int)
    requires Counts(seen, barsBySymbol, barsBySymbol.Keys) && barsBySymbol.Keys != {}
    ensures Date(day) in seen && |seen[Date(day)]| == |barsBySymbol| <==> EverySymbolHas(barsBySymbol, day)
  {
    if Date(day) in seen && |seen[Date(day)]| == |barsBySymbol| {
      SubsetOfSameSize(seen[Date(day)], barsBySymbol.Keys);
      assert |barsBySymbol.Keys| == |barsBySymbol|;
      forall s | s in barsBySymbol ensures HasDay(barsBySymbol[s], day) {
        assert SeenBy(seen, day, s);
      }
    }
    if EverySymbolHas(barsBySymbol, day) {
      var some :| some in barsBySymbol;
      assert SeenBy(seen, day, some);
      forall s | s in barsBySymbol ensures s in seen[Date(day)] {
        assert SeenBy(seen, day, s);
      }
      assert seen[Date(day)] == barsBySymbol.Keys;
    }
  }

  lemma SubsetOfSameSize(a: set<Symbol>, b: set<Symbol>)
    requires a <= b
    ensures |a| == |b| <==> a == b
  {
    if a != b {
      assert a < b;
      var x :| x in b && x !in a;
      assert a <= b - {x};
      SubsetIsNoLarger(a, b - {x});
    }
  }

  lemma {:induction false} SubsetIsNoLarger(a: set<Symbol>, b: set<Symbol>)
    requires a <= b
    ensures |a| <= |b|
  {
    if a != {} {
      var x :| x in a;
      SubsetIsNoLarger(a - {x}, b - {x});
    }
  }

  // ---- sort

  function InsertDay(days: seq<int>, d: int): (r: seq<int>)
    requires StrictlyAscending(days) && !Lists(days, d)
    ensures StrictlyAscending(r)
    ensures forall i :: 0 <= i < |r| ==> r[i] <= d || (days != [] && r[i] <= days[|days| - 1])
  {
    if days == [] || days[|days| - 1] < d then days + [d]
    else
      var last := days[|days| - 1];
      InsertDay(days[..|days| - 1], d) + [last]
  }

  lemma {:induction false} InsertLists(days: seq<int>, d: int, x: int)
    requires StrictlyAscending(days) && !Lists(days, d)
    ensures Lists(InsertDay(days, d), x) <==> Lists(days, x) || x == d
  {
    if days == [] || days[|days| - 1] < d {
      ListsStep(days, d, x);
    } else {
      InsertLists(days[..|days| - 1], d, x);
      ListsStep(InsertDay(days[..|days| - 1], d), days[|days| - 1], x);
    }
  }

  method CalendarOf(barsBySymbol: map<Symbol, seq<Bar>>) returns (dates: seq<int>)
    ensures IsCalendar(dates, barsBySymbol)
  {
    dates := [];
    if |barsBySymbol| == 0 {
      assert barsBySymbol.Keys == {};
      return;
    }
    var seen: map<Date, set<Symbol>> := map[];
    var left := barsBySymbol.Keys;
    while left != {}
      invariant left <= barsBySymbol.Keys && Counts(seen, barsBySymbol, barsBySymbol.Keys - left)
    {
      var symbol :| symbol in left;
      seen := SeeSymbol(symbol, barsBySymbol[symbol], seen);
      left := left - {symbol};
    }
    assert barsBySymbol.Keys - left == barsBySymbol.Keys;
    dates := FullDays(seen, |barsBySymbol|);
    assert barsBySymbol.Keys != {};
    forall d ensures Lists(dates, d) <==> EverySymbolHas(barsBySymbol, d) {
      FullCountMeansEvery(seen, barsBySymbol, d);
    }
  }

  method FullDays(seen: map<Date, set<Symbol>>, symbols: nat) returns (dates: seq<int>)
    ensures StrictlyAscending(dates)
    ensures forall d :: Lists(dates, d) <==> Date(d) in seen && |seen[Date(d)]| == symbols
  {
    dates := [];
    var days := seen.Keys;
    while days != {}
      invariant days <= seen.Keys && StrictlyAscending(dates)
      invariant forall d :: Lists(dates, d) <==> Date(d) in seen && Date(d) !in days && |seen[Date(d)]| == symbols
    {
      var day :| day in days;
      if |seen[day]| == symbols {
        forall d ensures Lists(InsertDay(dates, day.number), d) <==> Lists(dates, d) || d == day.number {
          InsertLists(dates, day.number, d);
        }
        dates := InsertDay(dates, day.number);
      }
      days := days - {day};
    }
  }
}
