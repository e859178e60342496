/** Rounding of availability shares. */
module Rounding {

  /** Rounding to the nearest integer, halves to the even neighbour. */
  function Round(x: real): (r: int)
    ensures r as real - 0.5 <= x <= r as real + 0.5
  {
    var low := x.Floor;
    var part := x - low as real;
    if part < 0.5 || (part == 0.5 && low % 2 == 0) then low else low + 1
  }

  lemma NonNegative(a: real, b: real)
    requires a >= 0.0 && b >= 0.0
    ensures a * b >= 0.0
  {
  }

  /** Rounding stays between whole bounds. */
  lemma RoundBetween(x: real, n: nat)
    requires 0.0 <= x <= n as real
    ensures 0 <= Round(x) <= n
    ensures x == 0.0 ==> Round(x) == 0
    ensures x == n as real ==> Round(x) == n
  {
    var r := Round(x);
    assert r as real < n as real + 1.0;
    assert r as real > -1.0;
  }

  /** Part of n is between nothing and all of it. */
  lemma PartOfWhole(whole: real, f: real)
    requires whole >= 0.0 && 0.0 <= f <= 1.0
    ensures 0.0 <= whole * f <= whole
    ensures f == 0.0 ==> whole * f == 0.0
    ensures f == 1.0 ==> whole * f == whole
  {
    NonNegative(whole, f);
    NonNegative(whole, 1.0 - f);
    assert whole * (1.0 - f) == whole - whole * f;
  }

  function Share(n: nat, f: real): (r: nat)
    requires 0.0 <= f <= 1.0
    ensures r <= n && (f == 0.0 ==> r == 0) && (f == 1.0 ==> r == n)
  {
    PartOfWhole(n as real, f);
    RoundBetween(n as real * f, n);
    Round(n as real * f)
  }

  /** r is the integer nearest to x, the even one if two are. */
  ghost predicate Nearest(r: int, x: real) {
    && r as real - 0.5 <= x <= r as real + 0.5
    && (x == r as real + 0.5 || x == r as real - 0.5 ==> r % 2 == 0)
  }

  /** Rounded shares are the nearest ones. */
  lemma ShareNearest(n: nat, f: real)
    requires 0.0 <= f <= 1.0
    ensures Nearest(Share(n, f), n as real * f)
  {
    RoundNearest(n as real * f);
  }

  lemma RoundNearest(x: real)
    ensures Nearest(Round(x), x)
  {
  }

  // ---------- The exact condition ----------

  ghost predicate SplitsAt(f: real, a: nat, b: nat)
    requires 0.0 <= f <= 1.0
  {
    Share(a + b, f) == Share(a, f) + Share(b, f)
  }

  /** Rounded availability adds up over every split exactly when the fraction is 0 or 1. */
  lemma ShareSplitsIff(f: real)
    requires 0.0 <= f <= 1.0
    ensures (forall a: nat, b: nat :: SplitsAt(f, a, b)) <==> f == 0.0 || f == 1.0
  {
    if (forall a: nat, b: nat :: SplitsAt(f, a, b)) && f != 0.0 && f != 1.0 {
      var n := UnevenShare(f);
      SharesOfOne(f, n);
    }
  }

  /** For a proper fraction, some n microseconds taken together round differently than one by one. */
  lemma UnevenShare(f: real) returns (n: nat)
    requires 0.0 < f < 1.0
    ensures Share(n, f) != n * Share(1, f)
  {
    if Share(1, f) == 0 {
      n := ManyGaps(f);
      ShareNear(n, f);
    } else {
      n := ManyGaps(1.0 - f);
      ShareNear(n, f);
      assert n * Share(1, f) == n;
      assert n as real * (1.0 - f) == n as real - n as real * f;
    }
  }

  /** Enough copies of a positive gap exceed one. */
  lemma ManyGaps(gap: real) returns (n: nat)
    requires gap > 0.0
    ensures n as real * gap >= 2.0
  {
    var x := TwiceReciprocal(gap);
    n := Above(x);
    ScaledUp(x, n as real, gap, x * gap);
  }

  lemma TwiceReciprocal(gap: real) returns (x: real)
    requires gap > 0.0
    ensures x > 0.0 && x * gap >= 2.0
  {
    x := 2.0 / gap;
  }

  lemma Above(x: real) returns (n: nat)
    requires x > 0.0
    ensures n as real >= x
  {
    n := x.Floor + 1;
  }

  lemma ScaledUp(x: real, y: real, gap: real, p: real)
    requires p == x * gap && y >= x && gap > 0.0
    ensures y * gap >= p
  {
    NonNegative(y - x, gap);
    assert (y - x) * gap == y * gap - x * gap;
  }

  lemma ShareNear(n: nat, f: real)
    requires 0.0 <= f <= 1.0
    ensures Share(n, f) as real - 0.5 <= n as real * f <= Share(n, f) as real + 0.5
  {
  }

  lemma {:induction false} SharesOfOne(f: real, n: nat)
    requires 0.0 <= f <= 1.0
    requires forall a: nat, b: nat :: SplitsAt(f, a, b)
    ensures Share(n, f) == n * Share(1, f)
  {
    if n == 0 {
      assert SplitsAt(f, 0, 0);
    } else {
      SharesOfOne(f, n - 1);
      assert SplitsAt(f, n - 1, 1);
      assert (n - 1) * Share(1, f) + Share(1, f) == n * Share(1, f);
    }
  }
}
