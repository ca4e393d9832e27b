/** Sums, extrema and the two transcendental functions the scoring pipeline
    relies on. Natural logarithm and square root are not computed here: they
    are passed in as functions and constrained only by the properties that the
    rest of the model needs (IsLogLike, IsSqrt). */
module Numeric {

  /** Sum of a sequence of reals, folded from the left. */
  function Sum(s: seq<real>): real
  {
    if |s| == 0 then 0.0 else Sum(s[..|s| - 1]) + s[|s| - 1]
  }

  /** Sum of a sequence of counts. */
  function SumNat(s: seq<nat>): nat
  {
    if |s| == 0 then 0 else SumNat(s[..|s| - 1]) + s[|s| - 1]
  }

  /** Each count of `s` as a share of `d`. */
  function Shares(s: seq<nat>, d: real): (r: seq<real>)
    requires d > 0.0
    ensures |r| == |s|
  {
    seq(|s|, k requires 0 <= k < |s| => s[k] as real / d)
  }

  /** The smallest element (pandas `Series.min`). */
  function Min(s: seq<real>): (m: real)
    requires |s| > 0
    ensures forall i :: 0 <= i < |s| ==> m <= s[i]
    ensures m in s
  {
    if |s| == 1 then s[0]
    else
      var m' := Min(s[..|s| - 1]);
      assert m' in s;
      if s[|s| - 1] < m' then s[|s| - 1] else m'
  }

  /** The largest element (pandas `Series.max`). */
  function Max(s: seq<real>): (m: real)
    requires |s| > 0
    ensures forall i :: 0 <= i < |s| ==> s[i] <= m
    ensures m in s
  {
    if |s| == 1 then s[0]
    else
      var m' := Max(s[..|s| - 1]);
      assert m' in s;
      if s[|s| - 1] > m' then s[|s| - 1] else m'
  }

  /** What the model assumes of `numpy.log`: it vanishes at 1, is positive
      above 1 and negative strictly between 0 and 1. */
  ghost predicate IsLogLike(ln: real -> real)
  {
    && ln(1.0) == 0.0
    && (forall x :: x > 1.0 ==> ln(x) > 0.0)
    && (forall x :: 0.0 < x < 1.0 ==> ln(x) < 0.0)
  }

  /** What the model assumes of the square root taken by a standard
      deviation: a non-negative number whose square is the argument. */
  ghost predicate IsSqrt(sqrt: real -> real)
  {
    forall x :: 0.0 <= x ==> 0.0 <= sqrt(x) && sqrt(x) * sqrt(x) == x
  }

  lemma {:induction false} SumAppend(a: seq<real>, b: seq<real>)
    ensures Sum(a + b) == Sum(a) + Sum(b)
  {
    if |b| == 0 {
      assert a + b == a;
    } else {
      assert (a + b)[..|a + b| - 1] == a + b[..|b| - 1];
      SumAppend(a, b[..|b| - 1]);
    }
  }

  lemma {:induction false} SumNonNegative(s: seq<real>)
    requires forall i :: 0 <= i < |s| ==> 0.0 <= s[i]
    ensures 0.0 <= Sum(s)
  {
    if |s| > 0 {
      SumNonNegative(s[..|s| - 1]);
    }
  }

  /** Replacing one count changes the total by the difference. */
  lemma {:induction false} SumNatUpdate(s: seq<nat>, k: nat, x: nat)
    requires k < |s|
    ensures SumNat(s[k := x]) + s[k] == SumNat(s) + x
  {
    if k == |s| - 1 {
      assert s[k := x][..|s| - 1] == s[..|s| - 1];
    } else {
      assert s[k := x][..|s| - 1] == s[..|s| - 1][k := x];
      SumNatUpdate(s[..|s| - 1], k, x);
    }
  }

  /** Shares of a common total add up to the sum over that total. */
  lemma {:induction false} SumShares(s: seq<nat>, d: real)
    requires d > 0.0
    ensures Sum(Shares(s, d)) == SumNat(s) as real / d
  {
    if |s| > 0 {
      var p := s[..|s| - 1];
      assert Shares(s, d)[..|s| - 1] == Shares(p, d);
      SumShares(p, d);
      QuotientAdd(SumNat(p) as real, s[|s| - 1] as real, d);
    }
  }

  // Facts about dividing by a positive number, kept apart so that each
  // proof sees only its own arithmetic.

  lemma QuotientBounds(a: real, d: real)
    requires 0.0 < d && 0.0 <= a <= d
    ensures 0.0 <= a / d <= 1.0
  {
  }

  lemma QuotientEndpoints(a: real, d: real)
    requires 0.0 < d
    ensures a / d == 0.0 <==> a == 0.0
    ensures a / d == 1.0 <==> a == d
  {
  }

  lemma QuotientAdd(a: real, b: real, d: real)
    requires 0.0 < d
    ensures a / d + b / d == (a + b) / d
  {
  }

  lemma QuotientMonotone(a: real, b: real, d: real)
    requires 0.0 < d
    ensures a <= b <==> a / d <= b / d
    ensures a < b <==> a / d < b / d
  {
    assert b / d - a / d == (b - a) / d;
  }
}
