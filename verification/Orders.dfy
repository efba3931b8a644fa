/** What an order request must be before it becomes an order. */
module Orders {
  import opened Numeric
  import opened Wrappers
  import opened Market
  import opened Text
  import opened Ledger

  const MAX_SYMBOL_LENGTH: nat := 16

  datatype Request = Request(symbol: string, side: Side, quantity: real)

  datatype Order = Order(symbol: Symbol, side: Side, quantity: Lot)

  function UpperChar(c: char): (u: char)
    ensures IsSpace(u) <==> IsSpace(c)
  {
    if 'a' <= c <= 'z' then c - 'a' + 'A' else c
  }

  function Upper(s: string): (u: string)
    ensures |u| == |s| && forall i :: 0 <= i < |s| ==> u[i] == UpperChar(s[i])
  {
    seq(|s|, i requires 0 <= i < |s| => UpperChar(s[i]))
  }

  function Trim(s: string): string
    decreases |s|
  {
    if s == "" then ""
    else if IsSpace(s[0]) then Trim(s[1..])
    else if IsSpace(s[|s| - 1]) then Trim(s[..|s| - 1])
    else s
  }

  /** The one spelling a symbol is stored under. */
  function Normalized(symbol: string): Symbol {
    Upper(Trim(symbol))
  }

  /** Normalizing what is normal changes nothing. */
  lemma NormalizedIsNormal(symbol: string)
    ensures Normalized(Normalized(symbol)) == Normalized(symbol)
  {
    var _, _ := TrimKeepsTheMiddle(symbol);
    var n := Normalized(symbol);
    assert Trim(n) == n;
    assert forall c: char :: UpperChar(UpperChar(c)) == UpperChar(c);
  }

  ghost predicate AllSpace(s: string) {
    forall i :: 0 <= i < |s| ==> IsSpace(s[i])
  }

  /** Trimming takes off space at either end and nothing else. */
  lemma {:induction false} TrimKeepsTheMiddle(s: string) returns (before: string, after: string)
    ensures s == before + Trim(s) + after && AllSpace(before) && AllSpace(after)
    ensures var t := Trim(s); t == "" || (!IsSpace(t[0]) && !IsSpace(t[|t| - 1]))
    decreases |s|
  {
    before, after := "", "";
    if s == "" {
    } else if IsSpace(s[0]) {
      var rest;
      rest, after := TrimKeepsTheMiddle(s[1..]);
      before := [s[0]] + rest;
      hide Trim;
      JoinFirst(s, rest, Trim(s[1..]), after);
    } else if IsSpace(s[|s| - 1]) {
      var rest;
      before, rest := TrimKeepsTheMiddle(s[..|s| - 1]);
      after := rest + [s[|s| - 1]];
      hide Trim;
      JoinLast(s, before, Trim(s[..|s| - 1]), rest);
    }
  }

  lemma JoinFirst(s: string, before: string, middle: string, after: string)
    requires s != "" && s[1..] == before + middle + after
    ensures s == [s[0]] + before + middle + after
  {
    assert s == [s[0]] + s[1..];
  }

  lemma JoinLast(s: string, before: string, middle: string, after: string)
    requires s != "" && s[..|s| - 1] == before + middle + after
    ensures s == before + middle + (after + [s[|s| - 1]])
  {
    assert s == s[..|s| - 1] + [s[|s| - 1]];
  }

  /** Upper case keeps the letter: twenty-six letters move by one distance, onto capitals, and nothing else moves. */
  lemma UpperKeepsTheLetter(c: char)
    ensures if 'a' <= c <= 'z' then 'A' <= UpperChar(c) <= 'Z' && UpperChar(c) as int - 'A' as int == c as int - 'a' as int
            else UpperChar(c) == c
  {}

  lemma {:induction false} TrimIgnoresSpaceBefore(before: string, s: string)
    requires AllSpace(before)
    ensures Trim(before + s) == Trim(s)
    decreases |before|
  {
    if before == "" {
      assert before + s == s;
    } else {
      assert (before + s)[1..] == before[1..] + s;
      TrimIgnoresSpaceBefore(before[1..], s);
    }
  }

  lemma {:induction false} TrimIgnoresSpaceAfter(s: string, after: string)
    requires AllSpace(after)
    ensures Trim(s + after) == Trim(s)
    decreases |s|, |after|
  {
    if after == "" {
      assert s + after == s;
    } else if s == "" {
      assert s + after == after + s;
      TrimIgnoresSpaceBefore(after, s);
    } else if IsSpace(s[0]) {
      assert (s + after)[1..] == s[1..] + after;
      TrimIgnoresSpaceAfter(s[1..], after);
    } else {
      assert (s + after)[..|s + after| - 1] == s + after[..|after| - 1];
      TrimIgnoresSpaceAfter(s, after[..|after| - 1]);
    }
  }

  /** Spellings of a symbol that differ only in the space around them and in case are one symbol, so a holding is never
      split over two rows. */
  lemma SpellingsAreOneSymbol(before: string, s: string, after: string)
    requires AllSpace(before) && AllSpace(after)
    ensures Normalized(before + s + after) == Normalized(s) == Normalized(Upper(s))
  {
    TrimIgnoresSpaceAfter(before + s, after);
    TrimIgnoresSpaceBefore(before, s);
    TrimOfUpper(s);
    assert forall c: char :: UpperChar(UpperChar(c)) == UpperChar(c);
  }

  lemma {:induction false} TrimOfUpper(s: string)
    ensures Trim(Upper(s)) == Upper(Trim(s))
    decreases |s|
  {
    if s != "" {
      if IsSpace(s[0]) {
        assert Upper(s)[1..] == Upper(s[1..]);
        TrimOfUpper(s[1..]);
      } else if IsSpace(s[|s| - 1]) {
        assert Upper(s)[..|s| - 1] == Upper(s[..|s| - 1]);
        TrimOfUpper(s[..|s| - 1]);
      }
    }
  }

  /** A request becomes an order if and only if its symbol has one to MAX_SYMBOL_LENGTH characters once trimmed, its
      side is known and its quantity is between one tick and a billion shares. The order is for the normal spelling, and
      for a whole number of ticks at most half a tick from what was asked, and exactly that where it was whole. */
  function ValidateOrder(req: Request): (r: Option<Order>)
    ensures r.Some? <==> && 1 <= |Trim(req.symbol)| <= MAX_SYMBOL_LENGTH && (req.side == Buy || req.side == Sell)
                         && 0.0001 <= req.quantity <= 1000000000.0
    ensures r.Some? ==> r.value.symbol == Normalized(req.symbol) && r.value.side == req.side
    ensures r.Some? ==> -HALF_TICK <= Shares(r.value.quantity) - req.quantity <= HALF_TICK
    ensures r.Some? && WholeTicks(req.quantity) ==> Shares(r.value.quantity) == req.quantity
  {
    var symbol := Normalized(req.symbol);
    assert |symbol| == |Trim(req.symbol)|;
    if |symbol| == 0 || |symbol| > MAX_SYMBOL_LENGTH then None
    else if req.side != Buy && req.side != Sell then None
    else
      match SnapQuantity(req.quantity)
      case None => None
      case Some(ticks) => Some(Order(symbol, req.side, ticks))
  }
}
