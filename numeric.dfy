/** Exact-arithmetic models of the C++ numeric conversions the solver relies on:
    `int(round(v))` on a decision value and `std::accumulate` with an `int`
    accumulator over a vector of doubles. */
module Numeric {

  /** C++ conversion of a real to int: truncation toward zero. */
  function Trunc(r: real): (t: int)
    ensures 0.0 <= r ==> 0 <= t && t as real <= r < t as real + 1.0
    ensures r < 0.0 ==> t <= 0 && t as real - 1.0 < r <= t as real
  {
    if r >= 0.0 then r.Floor else -((-r).Floor)
  }

  /** `round` of the C library: the nearest integer, halves away from zero. */
  function RoundHalfAway(v: real): (n: int)
    ensures 0.0 <= v ==> 0 <= n && n as real - 0.5 <= v < n as real + 0.5
    ensures v < 0.0 ==> n <= 0 && n as real - 0.5 < v <= n as real + 0.5
  {
    if v >= 0.0 then (v + 0.5).Floor else -((-v + 0.5).Floor)
  }

  /** A decision value counts as "on" when `int(round(v)) > 0`. */
  predicate Chosen(v: real) {
    RoundHalfAway(v) > 0
  }

  /** The rounding test is a threshold at one half. */
  lemma ChosenIffHalf(v: real)
    ensures Chosen(v) <==> v >= 0.5
  {
    if v < 0.0 {
      assert (-v + 0.5).Floor >= 0;
    }
  }

  /** Exact sum of a vector, from the left. */
  function Sum(xs: seq<real>): real {
    if xs == [] then 0.0 else xs[0] + Sum(xs[1..])
  }

  lemma {:induction false} SumSnoc(xs: seq<real>, v: real)
    ensures Sum(xs + [v]) == Sum(xs) + v
    decreases |xs|
  {
    if xs == [] {
      assert [] + [v] == [v] && [v][1..] == [];
    } else {
      assert (xs + [v])[1..] == xs[1..] + [v];
      SumSnoc(xs[1..], v);
    }
  }

  /** `std::accumulate(xs.begin(), xs.end(), acc)` with an `int` accumulator:
      each step converts `acc + x` back to `int`, truncating toward zero. */
  function AccumulateFrom(acc: int, xs: seq<real>): int
    decreases |xs|
  {
    if xs == [] then acc else AccumulateFrom(Trunc(acc as real + xs[0]), xs[1..])
  }

  function AccumulateInt(xs: seq<real>): int {
    AccumulateFrom(0, xs)
  }

  predicate IsIntegral(v: real) {
    v.Floor as real == v
  }

  /** On a vector of whole numbers the truncating accumulation is the exact sum. */
  lemma {:induction false} AccumulateIntegral(acc: int, xs: seq<real>)
    requires forall i :: 0 <= i < |xs| ==> IsIntegral(xs[i])
    ensures AccumulateFrom(acc, xs) as real == acc as real + Sum(xs)
    decreases |xs|
  {
    if xs != [] {
      var a' := Trunc(acc as real + xs[0]);
      TruncIntegral(acc, xs[0]);
      assert forall i :: 0 <= i < |xs[1..]| ==> xs[1..][i] == xs[i + 1];
      AccumulateIntegral(a', xs[1..]);
    }
  }

  /** Adding a whole number to an `int` loses nothing in the conversion. */
  lemma TruncIntegral(acc: int, v: real)
    requires IsIntegral(v)
    ensures Trunc(acc as real + v) as real == acc as real + v
  {
    var k := acc + v.Floor;
    assert acc as real + v == k as real;
    TruncOfInt(k);
  }

  lemma TruncOfInt(k: int)
    ensures Trunc(k as real) == k
  {
    if k < 0 {
      assert -(k as real) == (-k) as real;
    }
  }

  /** On a non-negative vector the accumulation never drops below its start
      and never exceeds the exact sum. */
  lemma {:induction false} AccumulateNonNegative(acc: int, xs: seq<real>)
    requires 0 <= acc
    requires forall i :: 0 <= i < |xs| ==> 0.0 <= xs[i]
    ensures acc <= AccumulateFrom(acc, xs)
    ensures AccumulateFrom(acc, xs) as real <= acc as real + Sum(xs)
    decreases |xs|
  {
    if xs != [] {
      var a' := Trunc(acc as real + xs[0]);
      AccumulateNonNegative(a', xs[1..]);
    }
  }

  /** A non-negative vector with an entry of at least one has a nonzero
      truncated sum, so the optimizer's output is not judged degenerate. */
  lemma {:induction false} AccumulateReachesOne(acc: int, xs: seq<real>, k: nat)
    requires 0 <= acc
    requires k < |xs| && 1.0 <= xs[k]
    requires forall i :: 0 <= i < |xs| ==> 0.0 <= xs[i]
    ensures 1 <= AccumulateFrom(acc, xs)
    decreases |xs|
  {
    var a' := Trunc(acc as real + xs[0]);
    if k == 0 {
      AccumulateNonNegative(a', xs[1..]);
    } else {
      AccumulateReachesOne(a', xs[1..], k - 1);
    }
  }

  /** Truncation after every step can lose a positive sum entirely. */
  lemma TruncationLosesFractions()
    ensures AccumulateInt([0.6, 0.6]) == 0 && Sum([0.6, 0.6]) == 1.2
  {
    assert AccumulateFrom(0, [0.6, 0.6]) == AccumulateFrom(0, [0.6]);
  }

  /** Entries of opposite sign cancel: the test is on the sum, not on every entry. */
  lemma CancellationGivesZero()
    ensures AccumulateInt([1.0, -1.0]) == 0
  {
    assert AccumulateFrom(0, [1.0, -1.0]) == AccumulateFrom(1, [-1.0]);
  }
}
