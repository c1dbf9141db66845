/** Energy bookkeeping of a solution: the data and pairwise costs written to
    the energy ledger after a successful solve, and the three-way split that
    `Solver::checkSolution` reports. */
module Energy {
  import opened Numeric
  import opened Sparse

  /** One ledger line `total,data,pairwise,reserved`. */
  datatype LedgerRow = LedgerRow(total: real, data: real, pairwise: real, reserved: int)

  /** `dataC` and `pairwiseC` of the solver, and the row appended for them. */
  function Ledger(x: seq<real>, lin: seq<Triplet>, quad: seq<Triplet>): (row: LedgerRow)
    requires RowsBelow(lin, |x|) && InBounds(quad, |x|)
    ensures row.data == LinearForm(x, lin)
    ensures row.pairwise == QuadraticForm(x, quad)
    ensures row.total == row.data + row.pairwise && row.reserved == 0
  {
    var dataC := LinearForm(x, lin);
    var pairwiseC := QuadraticForm(x, quad);
    LedgerRow(dataC + pairwiseC, dataC, pairwiseC, 0)
  }

  /** The weights the problem was built with: data, pairwise, complexity. */
  datatype Weights = Weights(data: real, pairwise: real, complexity: real)

  /** `energy(0)`, `energy(1)`, `energy(2)` of `checkSolution`. */
  datatype EnergySplit = EnergySplit(data: real, pairwise: real, complexity: real)

  /** `energy(2)`: `xᵀ` times the column holding the complexity weight in
      every row, which is the weight times the sum of the decision values. */
  function ComplexityEnergy(x: seq<real>, w: real): (c: real)
    ensures c == w * Sum(x)
  {
    LinearFormOfConstantColumn(x, w);
    LinearForm(x, ConstantColumn(|x|, w))
  }

  /** `energy(0)`: `xᵀ` times `linObj - complexity`, the linear objective with
      the complexity column taken out. */
  function DataEnergy(x: seq<real>, linObj: seq<Triplet>, w: real): (d: real)
    requires IsColumn(linObj, |x|)
    ensures d == LinearForm(x, linObj) - w * Sum(x)
  {
    var complexity := ConstantColumn(|x|, w);
    LinearFormOfConstantColumn(x, w);
    assert RowsBelow(linObj, |x|);
    LinearFormDifference(x, linObj, complexity);
    LinearForm(x, Difference(linObj, complexity))
  }

  /** `checkSolution`: the linear objective is taken apart into a per-variable
      complexity weight and the remaining data term `linObj - complexity`.
      The complexity part is the weight times the sum of the decision values,
      and data plus complexity is exactly `xᵀ·linObj`. */
  function CheckSolution(x: seq<real>, linObj: seq<Triplet>, qo: seq<Triplet>, weights: Weights): (e: EnergySplit)
    requires IsColumn(linObj, |x|) && InBounds(qo, |x|)
    ensures e.complexity == weights.complexity * Sum(x)
    ensures e.data + e.complexity == LinearForm(x, linObj)
    ensures e.pairwise == QuadraticForm(x, qo)
  {
    EnergySplit(DataEnergy(x, linObj, weights.complexity), QuadraticForm(x, qo),
                ComplexityEnergy(x, weights.complexity))
  }
}
