/** Strings in ascending order, as sort.Strings leaves them. */
module Ordering {

  predicate AtMost(a: string, b: string) {
    a == [] || (b != [] && (a[0] < b[0] || (a[0] == b[0] && AtMost(a[1..], b[1..]))))
  }

  lemma AtMostTotal(a: string, b: string)
    ensures AtMost(a, b) || AtMost(b, a)
  {}

  lemma AtMostAntisymmetric(a: string, b: string)
    requires AtMost(a, b) && AtMost(b, a)
    ensures a == b
  {
    if a != [] {
      AtMostAntisymmetric(a[1..], b[1..]);
      assert a == [a[0]] + a[1..] && b == [b[0]] + b[1..];
    }
  }

  lemma AtMostTransitive(a: string, b: string, c: string)
    requires AtMost(a, b) && AtMost(b, c)
    ensures AtMost(a, c)
  {}

  predicate IsLeast(s: set<string>, x: string) {
    x in s && forall y :: y in s ==> AtMost(x, y)
  }

  lemma {:induction false} LeastExists(s: set<string>)
    requires s != {}
    ensures exists x :: IsLeast(s, x)
  {
    var y :| y in s;
    AtMostTotal(y, y);
    if s == {y} {
      assert IsLeast(s, y);
    } else {
      assert s - {y} < s;
      LeastExists(s - {y});
      var x :| IsLeast(s - {y}, x);
      AtMostTotal(x, y);
      var least := if AtMost(x, y) then x else y;
      forall z | z in s ensures AtMost(least, z) {
        if z != y && !AtMost(x, y) {
          AtMostTransitive(y, x, z);
        }
      }
      assert IsLeast(s, least);
    }
  }

  lemma LeastUnique(s: set<string>, x: string, y: string)
    requires IsLeast(s, x) && IsLeast(s, y)
    ensures x == y
  {
    AtMostAntisymmetric(x, y);
  }

  ghost predicate Ascending(keys: seq<string>) {
    forall i, j :: 0 <= i < j < |keys| ==> keys[i] != keys[j] && AtMost(keys[i], keys[j])
  }

  /** The members of a set in ascending order. */
  function SortedKeys(s: set<string>): (keys: seq<string>)
    ensures Ascending(keys)
    ensures forall x :: x in keys <==> x in s
  {
    if s == {} then []
    else
      LeastExists(s);
      assert forall x, y | IsLeast(s, x) && IsLeast(s, y) :: x == y by {
        forall x, y | IsLeast(s, x) && IsLeast(s, y) ensures x == y { LeastUnique(s, x, y); }
      }
      var x :| IsLeast(s, x);
      [x] + SortedKeys(s - {x})
  }

  lemma {:induction false} KeysCounted(s: set<string>)
    ensures |SortedKeys(s)| == |s|
  {
    if s != {} {
      var keys := SortedKeys(s);
      var x := keys[0];
      assert keys == [x] + SortedKeys(s - {x});
      KeysCounted(s - {x});
    }
  }
}
