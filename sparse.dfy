/** Sparse matrices as the optimizer hands them out, and the two products the
    solver evaluates on them: the (0,0) coefficient of `xᵀ·M` and of `xᵀ·Q·x`.
    A matrix is the sequence of its stored entries in storage order; entries
    are accumulated in that order. Arithmetic is exact. */
module Sparse {
  import opened Numeric
  import opened Sequences

  datatype Triplet = Triplet(row: nat, col: nat, value: real)

  predicate RowsBelow(m: seq<Triplet>, n: nat) {
    forall k :: 0 <= k < |m| ==> m[k].row < n
  }

  /** Every stored entry of `q` lies inside an `n`×`n` matrix. */
  predicate InBounds(q: seq<Triplet>, n: nat) {
    forall k :: 0 <= k < |q| ==> q[k].row < n && q[k].col < n
  }

  /** `m` is an `n`×1 column vector. */
  predicate IsColumn(m: seq<Triplet>, n: nat) {
    forall k :: 0 <= k < |m| ==> m[k].row < n && m[k].col == 0
  }

  /** Coefficient (0,0) of `xᵀ·M`: only entries of column 0 take part. */
  function LinearForm(x: seq<real>, m: seq<Triplet>): real
    requires RowsBelow(m, |x|)
    decreases |m|
  {
    if m == [] then 0.0
    else
      var t := m[|m| - 1];
      LinearForm(x, m[..|m| - 1]) + (if t.col == 0 then x[t.row] * t.value else 0.0)
  }

  /** Coefficient (0,0) of `xᵀ·Q·x`. */
  function QuadraticForm(x: seq<real>, q: seq<Triplet>): real
    requires InBounds(q, |x|)
    decreases |q|
  {
    if q == [] then 0.0
    else
      var t := q[|q| - 1];
      QuadraticForm(x, q[..|q| - 1]) + x[t.row] * t.value * x[t.col]
  }

  /** Stored entries `a` followed by stored entries `b`: the sum of two
      matrices of the same shape. */
  lemma {:induction false} LinearFormConcat(x: seq<real>, a: seq<Triplet>, b: seq<Triplet>)
    requires RowsBelow(a, |x|) && RowsBelow(b, |x|)
    ensures RowsBelow(a + b, |x|)
    ensures LinearForm(x, a + b) == LinearForm(x, a) + LinearForm(x, b)
    decreases |b|
  {
    RowsBelowConcat(a, b, |x|);
    if b == [] {
      assert a + b == a;
    } else {
      var b' := b[..|b| - 1];
      ConcatInit(a, b);
      assert RowsBelow(b', |x|);
      LinearFormConcat(x, a, b');
    }
  }

  lemma RowsBelowConcat(a: seq<Triplet>, b: seq<Triplet>, n: nat)
    requires RowsBelow(a, n) && RowsBelow(b, n)
    ensures RowsBelow(a + b, n)
  {
    forall k | 0 <= k < |a + b| ensures (a + b)[k].row < n {
      if k >= |a| { assert (a + b)[k] == b[k - |a|]; }
    }
  }

  /** The entries of `m` with their values negated: `-m`. */
  function Negated(m: seq<Triplet>): (r: seq<Triplet>)
    ensures |r| == |m|
    ensures forall k :: 0 <= k < |m| ==> r[k] == Triplet(m[k].row, m[k].col, -m[k].value)
  {
    seq(|m|, k requires 0 <= k < |m| => Triplet(m[k].row, m[k].col, -m[k].value))
  }

  lemma {:induction false} LinearFormNegated(x: seq<real>, m: seq<Triplet>)
    requires RowsBelow(m, |x|)
    ensures RowsBelow(Negated(m), |x|)
    ensures LinearForm(x, Negated(m)) == -LinearForm(x, m)
    decreases |m|
  {
    if m != [] {
      var init := m[..|m| - 1];
      assert Negated(m)[..|m| - 1] == Negated(init);
      LinearFormNegated(x, init);
    }
  }

  /** `a - b` holds the entries of `a` and the negated entries of `b`. */
  function Difference(a: seq<Triplet>, b: seq<Triplet>): seq<Triplet> {
    a + Negated(b)
  }

  lemma LinearFormDifference(x: seq<real>, a: seq<Triplet>, b: seq<Triplet>)
    requires RowsBelow(a, |x|) && RowsBelow(b, |x|)
    ensures RowsBelow(Difference(a, b), |x|)
    ensures LinearForm(x, Difference(a, b)) == LinearForm(x, a) - LinearForm(x, b)
  {
    LinearFormNegated(x, b);
    LinearFormConcat(x, a, Negated(b));
  }

  /** The `n`×1 column with `w` in every row, stored row by row. */
  function ConstantColumn(n: nat, w: real): (c: seq<Triplet>)
    ensures |c| == n
    ensures forall i :: 0 <= i < n ==> c[i] == Triplet(i, 0, w)
  {
    seq(n, i requires 0 <= i < n => Triplet(i, 0, w))
  }

  /** `xᵀ` times the constant column `w` is `w·Σxᵢ`. */
  lemma LinearFormOfConstantColumn(x: seq<real>, w: real)
    ensures RowsBelow(ConstantColumn(|x|, w), |x|)
    ensures LinearForm(x, ConstantColumn(|x|, w)) == w * Sum(x)
  {
    LinearFormConstantAll(x, w, |x|);
  }

  lemma LinearFormConstantAll(x: seq<real>, w: real, n: nat)
    requires n == |x|
    ensures LinearForm(x, ConstantColumn(n, w)) == w * Sum(x)
  {
    LinearFormConstant(x, w, n);
    assert x[..n] == x;
  }

  /** `xᵀ` times the first `n` rows of the constant column `w` is `w` times
      the sum of the first `n` entries of `x`. */
  lemma {:induction false} LinearFormConstant(x: seq<real>, w: real, n: nat)
    requires n <= |x|
    ensures RowsBelow(ConstantColumn(n, w), |x|)
    ensures LinearForm(x, ConstantColumn(n, w)) == w * Sum(x[..n])
  {
    if n > 0 {
      var c := ConstantColumn(n, w);
      assert c[..n - 1] == ConstantColumn(n - 1, w);
      LinearFormConstant(x, w, n - 1);
      assert LinearForm(x, c) == LinearForm(x, ConstantColumn(n - 1, w)) + x[n - 1] * w;
      assert x[..n] == x[..n - 1] + [x[n - 1]];
      SumSnoc(x[..n - 1], x[n - 1]);
      assert w * (Sum(x[..n - 1]) + x[n - 1]) == w * Sum(x[..n - 1]) + x[n - 1] * w;
    }
  }

  /** The same entries with row and column swapped. */
  function Transpose(q: seq<Triplet>): (r: seq<Triplet>)
    ensures |r| == |q|
    ensures forall k :: 0 <= k < |q| ==> r[k] == Triplet(q[k].col, q[k].row, q[k].value)
  {
    seq(|q|, k requires 0 <= k < |q| => Triplet(q[k].col, q[k].row, q[k].value))
  }

  /** `xᵀ·Qᵀ·x == xᵀ·Q·x`: the pairwise cost does not depend on which of two
      symmetric entries is stored. */
  lemma {:induction false} QuadraticFormTranspose(x: seq<real>, q: seq<Triplet>)
    requires InBounds(q, |x|)
    ensures InBounds(Transpose(q), |x|)
    ensures QuadraticForm(x, Transpose(q)) == QuadraticForm(x, q)
    decreases |q|
  {
    if q != [] {
      var t := q[|q| - 1];
      assert Transpose(q)[..|q| - 1] == Transpose(q[..|q| - 1]);
      QuadraticFormTranspose(x, q[..|q| - 1]);
      assert x[t.col] * t.value * x[t.row] == x[t.row] * t.value * x[t.col];
    }
  }

  /** A 0/1 vector, such as a decision vector the optimizer rounds exactly. */
  predicate IsBinary(x: seq<real>) {
    forall i :: 0 <= i < |x| ==> x[i] == 0.0 || x[i] == 1.0
  }

  /** Total value of the column-0 entries whose row is selected. */
  function SelectedColumnWeight(x: seq<real>, m: seq<Triplet>): real
    requires RowsBelow(m, |x|)
    decreases |m|
  {
    if m == [] then 0.0
    else
      var t := m[|m| - 1];
      SelectedColumnWeight(x, m[..|m| - 1]) + (if t.col == 0 && x[t.row] == 1.0 then t.value else 0.0)
  }

  /** Total value of the entries whose row and column are both selected. */
  function SelectedPairWeight(x: seq<real>, q: seq<Triplet>): real
    requires InBounds(q, |x|)
    decreases |q|
  {
    if q == [] then 0.0
    else
      var t := q[|q| - 1];
      SelectedPairWeight(x, q[..|q| - 1]) + (if x[t.row] == 1.0 && x[t.col] == 1.0 then t.value else 0.0)
  }

  /** On a 0/1 vector the data cost is the summed cost of the chosen variables. */
  lemma {:induction false} LinearFormOfBinary(x: seq<real>, m: seq<Triplet>)
    requires IsBinary(x) && RowsBelow(m, |x|)
    ensures LinearForm(x, m) == SelectedColumnWeight(x, m)
    decreases |m|
  {
    if m != [] {
      LinearFormOfBinary(x, m[..|m| - 1]);
    }
  }

  /** On a 0/1 vector the pairwise cost is the summed weight of the interactions
      between chosen variables. */
  lemma {:induction false} QuadraticFormOfBinary(x: seq<real>, q: seq<Triplet>)
    requires IsBinary(x) && InBounds(q, |x|)
    ensures QuadraticForm(x, q) == SelectedPairWeight(x, q)
    decreases |q|
  {
    if q != [] {
      var t := q[|q| - 1];
      QuadraticFormOfBinary(x, q[..|q| - 1]);
      assert x[t.row] == 0.0 || x[t.row] == 1.0;
      assert x[t.col] == 0.0 || x[t.col] == 1.0;
    }
  }
}
