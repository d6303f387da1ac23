/** Rounding and powers over `real`, standing in for Go's math.Round and math.Pow on float64. */
module Rounding {

  /** math.Round: to the nearest integer, halves away from zero. */
  function Round(x: real): (n: int)
    ensures x - 0.5 <= n as real <= x + 0.5
    ensures x >= 0.0 ==> x - 0.5 < n as real
    ensures x <= 0.0 ==> n as real < x + 0.5
  {
    if x >= 0.0 then (x + 0.5).Floor else -((-x + 0.5).Floor)
  }

  lemma RoundMonotone(x: real, y: real)
    requires x <= y
    ensures Round(x) <= Round(y)
  {
  }

  /** The nearest integer is positive exactly from half a cent on. */
  lemma RoundPositive(x: real)
    ensures Round(x) >= 1 <==> x >= 0.5
  {
  }

  predicate IsHalf(x: real) {
    x - x.Floor as real == 0.5
  }

  /** Rounding both parts of a split integer amount keeps the amount, except that two halves both go up. */
  lemma RoundSplit(whole: int, part: real)
    requires part >= 0.0 && whole as real - part >= 0.0
    ensures Round(whole as real - part) + Round(part) == whole + (if IsHalf(part) then 1 else 0)
  {
    var f := part.Floor;
    var rest := part - f as real;
    assert 0.0 <= rest < 1.0;
    if rest < 0.5 {
      assert Round(part) == f;
      assert Round(whole as real - part) == whole - f;
    } else if rest == 0.5 {
      assert Round(part) == f + 1;
      assert Round(whole as real - part) == whole - f;
    } else {
      assert Round(part) == f + 1;
      assert Round(whole as real - part) == whole - f - 1;
    }
  }

  function Pow(base: real, n: nat): real {
    if n == 0 then 1.0 else base * Pow(base, n - 1)
  }

  lemma {:induction false} PowPositive(base: real, n: nat)
    requires base > 0.0
    ensures Pow(base, n) > 0.0
  {
    if n > 0 { PowPositive(base, n - 1); }
  }

  /** A power of 1 + r differs from 1 once r does, so the payment formula never divides by zero. */
  lemma {:induction false} PowApartFromOne(r: real, n: nat)
    requires r > -1.0 && n >= 1
    ensures r > 0.0 ==> Pow(1.0 + r, n) >= 1.0 + r
    ensures r < 0.0 ==> Pow(1.0 + r, n) <= 1.0 + r
  {
    PowPositive(1.0 + r, n - 1);
    if n == 1 {
      assert Pow(1.0 + r, 0) == 1.0;
    } else {
      PowApartFromOne(r, n - 1);
      var p := Pow(1.0 + r, n - 1);
      if r > 0.0 {
        assert p * r >= 0.0;
      } else if r < 0.0 {
        assert p * r <= 0.0;
      }
    }
  }
}
