/** Sums: of sequences, and over finite sets of keys, independent of the order they are visited in. */
module Sums {

  function Sum(values: seq<real>): real {
    if values == [] then 0.0 else Sum(values[..|values| - 1]) + values[|values| - 1]
  }

  ghost function SumOver(f: string -> real, keys: set<string>): real
    decreases |keys|
  {
    if keys == {} then 0.0
    else
      var k :| k in keys;
      f(k) + SumOver(f, keys - {k})
  }

  lemma {:induction false} SumRemove(f: string -> real, keys: set<string>, k: string)
    requires k in keys
    ensures SumOver(f, keys) == f(k) + SumOver(f, keys - {k})
    decreases |keys|
  {
    var j :| j in keys && SumOver(f, keys) == f(j) + SumOver(f, keys - {j});
    if j != k {
      SumRemove(f, keys - {j}, k);
      SumRemove(f, keys - {k}, j);
      assert keys - {j} - {k} == keys - {k} - {j};
    }
  }

  lemma {:induction false} SumCongruent(f: string -> real, g: string -> real, keys: set<string>)
    requires forall k :: k in keys ==> f(k) == g(k)
    ensures SumOver(f, keys) == SumOver(g, keys)
    decreases |keys|
  {
    if keys != {} {
      var k :| k in keys;
      SumRemove(f, keys, k);
      SumRemove(g, keys, k);
      SumCongruent(f, g, keys - {k});
    }
  }

  function SumList(f: string -> real, keys: seq<string>): real {
    if keys == [] then 0.0 else SumList(f, keys[..|keys| - 1]) + f(keys[|keys| - 1])
  }

  /** Visiting every key once, in any order. */
  lemma {:induction false} SumListIsSumOver(f: string -> real, keys: seq<string>, s: set<string>)
    requires forall k :: k in keys <==> k in s
    requires forall i, j :: 0 <= i < j < |keys| ==> keys[i] != keys[j]
    ensures SumList(f, keys) == SumOver(f, s)
  {
    if keys == [] {
      assert s == {};
    } else {
      var last := keys[|keys| - 1];
      assert keys == keys[..|keys| - 1] + [last];
      forall k ensures k in keys[..|keys| - 1] <==> k in s - {last} {}
      SumListIsSumOver(f, keys[..|keys| - 1], s - {last});
      SumRemove(f, s, last);
    }
  }

  /** Keys that contribute nothing may be left out. */
  lemma {:induction false} SumSkipsZeros(f: string -> real, keys: set<string>, some: set<string>)
    requires some <= keys && forall k :: k in keys - some ==> f(k) == 0.0
    ensures SumOver(f, keys) == SumOver(f, some)
    decreases |keys|
  {
    if keys != some {
      assert exists k :: k in keys && k !in some;
      var k :| k in keys && k !in some;
      SumRemove(f, keys, k);
      SumSkipsZeros(f, keys - {k}, some);
    }
  }

  lemma {:induction false} SumDifference(f: string -> real, g: string -> real, h: string -> real, keys: set<string>)
    requires forall k :: k in keys ==> f(k) - g(k) == h(k)
    ensures SumOver(f, keys) - SumOver(g, keys) == SumOver(h, keys)
    decreases |keys|
  {
    if keys != {} {
      var k :| k in keys;
      SumRemove(f, keys, k);
      SumRemove(g, keys, k);
      SumRemove(h, keys, k);
      SumDifference(f, g, h, keys - {k});
    }
  }

  /** Moving one key's value moves the sum by as much. */
  lemma SumMoves(f: string -> real, g: string -> real, keys: set<string>, k: string, d: real)
    requires k in keys && f(k) == g(k) + d && forall j :: j in keys && j != k ==> f(j) == g(j)
    ensures SumOver(f, keys) == SumOver(g, keys) + d
  {
    SumRemove(f, keys, k);
    SumRemove(g, keys, k);
    SumCongruent(f, g, keys - {k});
  }
}
