/** Fixed-point money, shared by every service that stores a NUMERIC(20,4) column. */
module Numeric {

  const TICKS_PER_UNIT: real := 10000.0
  const HALF_TICK: real := 0.00005

  lemma FactorNonnegative(x: real, k: real)
    requires k > 0.0 && x * k >= 0.0
    ensures x >= 0.0
  {}

  lemma ProductNonnegative(x: real, y: real)
    requires x >= 0.0 && y >= 0.0
    ensures x * y >= 0.0
  {}

  /** Rounds to the nearest integer, halfway cases away from zero: math.Round in Go and the
      rule Postgres applies when a value is stored in a NUMERIC column. */
  function RoundHalfAway(x: real): (n: int)
    ensures n as real - 0.5 <= x <= n as real + 0.5
    ensures x >= 0.0 ==> n >= 0
    ensures x == n as real + 0.5 ==> n < 0
    ensures x == n as real - 0.5 ==> n > 0
  {
    if x >= 0.0 then (x + 0.5).Floor else -((0.5 - x).Floor)
  }

  lemma RoundHalfAwayMonotone(x: real, y: real)
    requires x <= y
    ensures RoundHalfAway(x) <= RoundHalfAway(y)
  {}

  /** How a column stores the value it is given: exactly, or as NUMERIC(20,4). Money arithmetic is
      stated for both, so a law of exact arithmetic and its drift under storage are one theorem. */
  datatype Column = Exact | Numeric4

  function Stored(column: Column, x: real): (y: real)
    ensures -HALF_TICK <= y - x <= HALF_TICK
    ensures x >= 0.0 ==> y >= 0.0
  {
    match column
    case Exact => x
    case Numeric4 => RoundHalfAway(x * TICKS_PER_UNIT) as real / TICKS_PER_UNIT
  }

  /** What one store may move a value by. */
  function StoreError(column: Column): real {
    if column.Exact? then 0.0 else HALF_TICK
  }

  lemma StoredWithin(column: Column, x: real)
    ensures -StoreError(column) <= Stored(column, x) - x <= StoreError(column)
  {}

  lemma StoredMonotone(column: Column, x: real, y: real)
    requires x <= y
    ensures Stored(column, x) <= Stored(column, y)
  {
    RoundHalfAwayMonotone(x * TICKS_PER_UNIT, y * TICKS_PER_UNIT);
  }

  /** A value with at most four decimals. */
  ghost predicate WholeTicks(x: real) {
    (x * TICKS_PER_UNIT).Floor as real == x * TICKS_PER_UNIT
  }

  /** Exactly the values with at most four decimals are stored unchanged. */
  lemma StoredFixesWholeTicks(x: real)
    ensures Stored(Numeric4, x) == x <==> WholeTicks(x)
  {
    var t := x * TICKS_PER_UNIT;
    var n := RoundHalfAway(t);
    if WholeTicks(x) {
      assert n as real - 0.5 <= t.Floor as real <= n as real + 0.5;
      assert n == t.Floor;
    }
  }

  /** Storing a stored value changes nothing. */
  lemma StoredIdempotent(column: Column, x: real)
    ensures Stored(column, Stored(column, x)) == Stored(column, x)
  {
    if column.Numeric4? {
      var n := RoundHalfAway(x * TICKS_PER_UNIT);
      var y := Stored(column, x);
      assert y * TICKS_PER_UNIT == n as real;
      StoredFixesWholeTicks(y);
    }
  }

  /** A share quantity column, counted in ticks, as the shares it stands for. */
  function Shares(ticks: int): real {
    ticks as real / TICKS_PER_UNIT
  }

  /** What a quantity of ticks comes to at a price per share. */
  function Amount(price: real, ticks: int): real {
    price * Shares(ticks)
  }
}
