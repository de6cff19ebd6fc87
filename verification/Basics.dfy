/** Small things that several modules speak of. */
module Basics {
  predicate Distinct<T(==)>(s: seq<T>) { forall i, j :: 0 <= i < j < |s| ==> s[i] != s[j] }

  function Min(a: int, b: int): int { if a < b then a else b }
  function Max(a: int, b: int): int { if a > b then a else b }

  function RealMin(a: real, b: real): real { if a < b then a else b }
  function RealMax(a: real, b: real): real { if a > b then a else b }

  lemma {:induction false} FloorIsMonotone(x: real, y: real)
    requires x <= y
    ensures x.Floor <= y.Floor
  {
    var a, b := x.Floor, y.Floor;
    assert a as real <= x && y < b as real + 1.0;
    assert a as real < (b + 1) as real;
  }

  lemma {:induction false} NotNegative(a: real, b: real)
    requires a >= 0.0 && b >= 0.0
    ensures a * b >= 0.0
  {
  }
}
