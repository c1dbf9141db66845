# RAPter solver driver, modelled in Dafny

RAPter (Regularity-Aware Primitive fitting) chooses a subset of candidate
primitives (planes, lines) by solving a mixed-integer quadratically
constrained problem. `Solver::solve` drives that step. It hands the problem to
the Bonmin optimizer and makes at most two attempts, raising the branch-and-bound
node limit from 100 to 200. It accepts an attempt when `read` succeeds,
`update` reports the optimizer's ok code, the decision vector is usable, and
`optimize` reports either the ok code or 0. From an accepted
vector it writes:

- the sparse solution `x.csv`;
- the SMALL candidates together with the chosen candidates re-tagged ACTIVE,
  as an iteration-numbered primitives file, after backing up the previous one
  (candidates that are neither SMALL nor chosen are dropped);
- an interaction graph (`diag_it<n>.gv`);
- one line of the energy ledger.

`Solver::checkSolution` splits a solution's energy into its data,
pairwise and complexity terms.

The model has these parts:

- **The retry loop.** `Solver.Solve` and `Solver.Attempt` are imperative,
  as the source is. They are proved against `Solver.Run`, a recursive
  definition of the whole run. The optimizer is an oracle: `Answer` holds,
  for one attempt, the codes of `read`, `update` and `optimize` and the
  vector `optimize` fills in. Every write the solver makes is recorded, in
  order, as an `Effect`.
- **The selection.** `SelectPrimitives`, `SelectRow` and `SelectOne` are
  the two nested loops over the candidates. They update the tags in place,
  as the source does, and fill a `Diagnostic` object whose fields are the
  node names, positions and edges. The loops are proved against the
  functions `Selected`, `ChosenNames` and `ChosenPositions`, which read off
  the output list, names and positions of one recursive walk `Select`, and
  against `Retagged`, all over the flattened container. The walk's
  properties are proved about those functions.
- **The graph.** Cluster-variable names (`AddClusterNodes`) and edges
  (`AddConstraintEdges` with its inner loop `AddMatrixEdges`), specified by
  `ClusterNames`, `ConstraintEdges` and `MatrixEdges`.
- **File names.** The output directory, the iteration- and solver-tagged
  primitives path, the diagnostics path, `x.csv` and the ledger path.
- **Energy.** The ledger row `(data + pairwise, data, pairwise, 0)` and the
  `checkSolution` split. Sparse matrices are sequences of
  `(row, col, value)` triplets, and the arithmetic is exact over `real`.
  A sum or difference of matrices is the list of both operands' entries,
  the second one negated for a difference; the products add up duplicate
  positions, as a sparse matrix sum does.

Files:

- `wrappers.dfy`: `Option`.
- `sequences.dfy`: small facts about sequences used by the proofs.
- `numeric.dfy`: rounding half away from zero, truncation, and the `int`
  accumulation used by the output test.
- `text.dfy`: decimal formatting of integers.
- `sparse.dfy`: linear and quadratic forms of triplet matrices.
- `energy.dfy`: the ledger row and the energy split.
- `primitives.dfy`: candidates and the selection rule.
- `diagnostic.dfy`: the graph object, cluster names and edges.
- `paths.dfy`: output file names.
- `solver.dfy`: the run, the loop and the post-processing methods.
- `solver_properties.dfy`: lemmas about whole runs.

Two behaviours follow the code and are easy to miss:

- An attempt in which `optimize` returns a code other than the ok code is
  still accepted when that code is 0. In that case `err = r` leaves
  `err == EXIT_SUCCESS`.
- The output test sums the vector with an `int` accumulator, truncating
  after every addition. So `[0.6, 0.6]` counts as empty, and so does
  `[1.0, -1.0]`.

## Model

| member | source | states |
|---|---|---|
| SolverProperties.ParseSolverIff | RAPter/include/rapter/optimization/impl/solver.hpp:63-66 | the names `mosek`, `bonmin`, `gurobi` and no others parse, each to its own backend |
| Solver.Solve | RAPter/include/rapter/optimization/impl/solver.hpp:120-221 | the attempt loop returns exactly the status and the writes of `Run` from attempt 0 |
| Solver.Attempt | RAPter/include/rapter/optimization/impl/solver.hpp:122-386 | one loop pass returns the status `AttemptStep` gives, advances the counter only for a counted attempt, and makes that attempt's configuration followed, on acceptance only, by the solution writes |
| SolverProperties.AttemptAcceptedIff | RAPter/include/rapter/optimization/impl/solver.hpp:180-221 | an attempt ends in success iff the backend is Bonmin, `read` returned 0, `update` returned the ok code, the vector is non-empty with a nonzero int-accumulated sum, and `optimize` returned the ok code or 0 |
| SolverProperties.AttemptCountedIff | RAPter/include/rapter/optimization/impl/solver.hpp:214-220 | `attemptCount` increases iff `read` succeeded and the vector is missing or degenerate, and such an attempt asks for a retry |
| SolverProperties.StallsIff | RAPter/include/rapter/optimization/impl/solver.hpp:146-150 | the loop repeats an attempt without counting it exactly when `read`, or `optimize` on a usable vector, returns the retry status |
| SolverProperties.DegenerateExamples | RAPter/include/rapter/optimization/impl/solver.hpp:214 | the empty vector, `[0.6, 0.6]` and `[1.0, -1.0]` are degenerate; `[1.0]` is not |
| SolverProperties.RunUnsupportedBackend | RAPter/include/rapter/optimization/impl/solver.hpp:132-142 | with a backend other than Bonmin the run returns EXIT_FAILURE and writes nothing |
| SolverProperties.RunReadFailureFatal | RAPter/include/rapter/optimization/impl/solver.hpp:146-150 | a failed `read` ends the run with its code after that attempt's configuration |
| SolverProperties.RunOptimizeFailureStops | RAPter/include/rapter/optimization/impl/solver.hpp:207-211 | a non-ok, nonzero `optimize` code with a usable vector ends the run with that code, without retrying or saving |
| SolverProperties.RunDegenerateExhausts | RAPter/include/rapter/optimization/impl/solver.hpp:121 | two counted attempts end the run with the retry status after configuring both attempts and writing nothing |
| SolverProperties.RunOutcomeIff | RAPter/include/rapter/optimization/impl/solver.hpp:120-221 | the run succeeds iff attempt 0 is accepted, or attempt 0 is counted and attempt 1 accepted; it returns the retry status iff both are counted |
| SolverProperties.RunEffects | RAPter/include/rapter/optimization/impl/solver.hpp:233-238 | after a success the writes are the attempts' configurations plus the solution writes for the accepted vector; otherwise there are only configurations |
| SolverProperties.RunNodeLimits | RAPter/include/rapter/optimization/impl/solver.hpp:162-163 | a Bonmin run configures node limit 100, then 200 if attempt 0 is counted; other backends configure nothing |
| SolverProperties.SolutionEffectsLayout | RAPter/include/rapter/optimization/impl/solver.hpp:238-383 | after acceptance: `x.csv` first and the ledger row last; with candidates, the graph, then the backup, then the primitives file, with the backup and the save on the same path and the graph on a different one |
| Solver.SparseSolution | RAPter/include/rapter/optimization/impl/solver.hpp:242-251 | the loop builds exactly the chosen entries of the vector, in index order |
| SolverProperties.SparseEntriesMembers | RAPter/include/rapter/optimization/impl/solver.hpp:244-249 | `x.csv` holds entry `(i, v)` iff `x[i]` rounds to a positive integer and `v == x[i]` |
| SolverProperties.SparseEntriesOrdered | RAPter/include/rapter/optimization/impl/solver.hpp:244-249 | the entries of `x.csv` are in strictly increasing index order, below the vector's length |
| Numeric.ChosenIffHalf | RAPter/include/rapter/optimization/impl/solver.hpp:246 | `int(round(v)) > 0` holds iff `v >= 1/2` |
| Numeric.Trunc | RAPter/include/rapter/optimization/impl/solver.hpp:214 | the conversion of a partial sum to `int` rounds toward zero |
| Numeric.AccumulateIntegral | RAPter/include/rapter/optimization/impl/solver.hpp:214 | on integral entries the int accumulation equals the real sum |
| Numeric.AccumulateNonNegative | RAPter/include/rapter/optimization/impl/solver.hpp:214 | on nonnegative entries the int accumulation is at least its start and at most the real sum |
| Numeric.AccumulateReachesOne | RAPter/include/rapter/optimization/impl/solver.hpp:214 | a nonnegative vector with an entry of at least 1 is never degenerate |
| Numeric.TruncationLosesFractions | RAPter/include/rapter/optimization/impl/solver.hpp:214 | `[0.6, 0.6]` accumulates to 0 though its sum is 1.2 |
| Numeric.CancellationGivesZero | RAPter/include/rapter/optimization/impl/solver.hpp:214 | `[1.0, -1.0]` accumulates to 0 |
| Solver.SelectPrimitives | RAPter/include/rapter/optimization/impl/solver.hpp:266-296 | the walk leaves the candidates re-tagged as `Retagged`, outputs `Selected`, ends with the decision index at the non-SMALL count, and adds exactly `ChosenNames` and `ChosenPositions` to the graph |
| Solver.SelectRow | RAPter/include/rapter/optimization/impl/solver.hpp:268-296 | the walk over one patch extends the re-tagging, the output, the index and the graph by that patch |
| Solver.SelectOne | RAPter/include/rapter/optimization/impl/solver.hpp:270-295 | one candidate: SMALL is copied without an index; otherwise it takes the next index and is re-tagged ACTIVE, copied, named `p<GID>,<DIR_GID>` and positioned iff its value is on |
| Primitives.SelectedIsKeptImages | RAPter/include/rapter/optimization/impl/solver.hpp:266-296 | the output is, in two-level iteration order, each SMALL candidate, each chosen candidate re-tagged ACTIVE, and nothing else |
| Primitives.SelectedLength | RAPter/include/rapter/optimization/impl/solver.hpp:266-296 | the output has one primitive per SMALL candidate and one per chosen decision variable |
| Primitives.RetaggedAt | RAPter/include/rapter/optimization/impl/solver.hpp:278-284 | after the walk the candidate at each position is ACTIVE iff it is non-SMALL and chosen, and unchanged otherwise, reading the decision value at its own index |
| Primitives.ChosenNamesKeys | RAPter/include/rapter/optimization/impl/solver.hpp:283-290 | every name and position the walk sets is at a chosen index below the non-SMALL count, and names and positions are set at the same indices |
| Primitives.ChosenNamesDomain | RAPter/include/rapter/optimization/impl/solver.hpp:283-290 | the walk names index `k` iff `k` is below the non-SMALL count and chosen |
| Primitives.ChosenNamesAt | RAPter/include/rapter/optimization/impl/solver.hpp:283-290 | the non-SMALL candidate at position `i` gets its name `p<GID>,<DIR_GID>` and its anchor at its decision index iff that value is on |
| Primitives.SelectionExample | RAPter/include/rapter/optimization/impl/solver.hpp:266-296 | two SMALL and three non-SMALL candidates with decisions `[0, 1, 1]` give the SMALL ones and the last two ACTIVE |
| Solver.AddClusterNodes | RAPter/include/rapter/optimization/impl/solver.hpp:299-316 | the loop adds exactly `ClusterNames` and leaves positions and edges unchanged |
| Diagnostics.ClusterNamesMembers | RAPter/include/rapter/optimization/impl/solver.hpp:302-315 | a cluster index is named, `<id>_on`, iff it is in range and chosen; `_off` is never assigned |
| SolverProperties.GraphNames | RAPter/include/rapter/optimization/impl/solver.hpp:283-316 | the graph names exactly the chosen decision variables: `p<GID>,<DIR_GID>` below `clusterVarsStart`, `<id>_on` from there on |
| Solver.AddConstraintEdges | RAPter/include/rapter/optimization/impl/solver.hpp:318-335 | the loop appends exactly `ConstraintEdges`, skipping empty matrices, and changes no names or positions |
| Solver.AddMatrixEdges | RAPter/include/rapter/optimization/impl/solver.hpp:326-333 | the inner loop appends exactly `MatrixEdges`, one edge per nonzero stored entry in storage order, and changes no names or positions |
| Diagnostics.MatrixEdgesMembers | RAPter/include/rapter/optimization/impl/solver.hpp:326-333 | an edge of a matrix is exactly the position of one of its nonzero stored entries |
| Diagnostics.MatrixEdgesCount | RAPter/include/rapter/optimization/impl/solver.hpp:326-333 | a matrix contributes one edge per nonzero entry, duplicates kept |
| Diagnostics.ConstraintEdgesMembers | RAPter/include/rapter/optimization/impl/solver.hpp:319-335 | the edges are exactly the nonzero entries of all constraint matrices |
| Diagnostics.EdgesExample | RAPter/include/rapter/optimization/impl/solver.hpp:319-335 | entries at (0,2) and (1,3) give the edges (0,2) then (1,3) |
| SolverProperties.GraphEdges | RAPter/include/rapter/optimization/impl/solver.hpp:319-335 | the drawn graph's edges are exactly the nonzero entries of the constraint matrices |
| Diagnostics.Diagnostic.SetNodeName | RAPter/include/rapter/optimization/impl/solver.hpp:289 | sets one node name and changes nothing else |
| Diagnostics.Diagnostic.SetNodePos | RAPter/include/rapter/optimization/impl/solver.hpp:290 | sets one node position and changes nothing else |
| Diagnostics.Diagnostic.AddEdge | RAPter/include/rapter/optimization/impl/solver.hpp:331 | appends one edge and changes nothing else |
| Solver.SaveCandidates | RAPter/include/rapter/optimization/impl/solver.hpp:256-359 | the candidates branch draws `GraphOf` to the diagnostics path, then backs up and saves the selection on the primitives path, leaving the graph object equal to `GraphOf` |
| Solver.SaveSolution | RAPter/include/rapter/optimization/impl/solver.hpp:238-383 | the writes after acceptance are exactly `SolutionEffects` |
| OutputPaths.OutputDir | RAPter/include/rapter/optimization/impl/solver.hpp:337-339 | an empty parent gives `./`; a nonempty parent is extended by exactly one `/` |
| OutputPaths.Iteration | RAPter/include/rapter/optimization/impl/solver.hpp:344 | the iteration is the parsed number when it is nonnegative, else 0 |
| OutputPaths.PrimitivesPathInjective | RAPter/include/rapter/optimization/impl/solver.hpp:345-348 | different iterations never share a primitives file |
| OutputPaths.DiagPathInjective | RAPter/include/rapter/optimization/impl/solver.hpp:351-354 | different iterations never share a diagnostics file |
| OutputPaths.DiagPathIsNotPrimitivesPath | RAPter/include/rapter/optimization/impl/solver.hpp:345-354 | the diagnostics file never coincides with a primitives file |
| OutputPaths.LedgerOfBareProject | RAPter/include/rapter/optimization/impl/solver.hpp:369-380 | for a project without a directory part the ledger is `/energy.csv` |
| Text.NatToString | RAPter/include/rapter/optimization/impl/solver.hpp:347 | the decimal form of a number is nonempty, all digits, and has no leading zero |
| Text.NatToStringRoundTrip | RAPter/include/rapter/optimization/impl/solver.hpp:347 | reading the decimal form back gives the number |
| Text.NatToStringInjective | RAPter/include/rapter/optimization/impl/solver.hpp:347 | different numbers have different decimal forms |
| Text.IntToStringRoundTrip | RAPter/include/rapter/optimization/impl/solver.hpp:288 | the signed decimal form of `%ld` reads back to the number |
| Text.IntToStringInjective | RAPter/include/rapter/optimization/impl/solver.hpp:288 | different numbers have different signed decimal forms |
| Energy.Ledger | RAPter/include/rapter/optimization/impl/solver.hpp:367-383 | the ledger row is `(data + pairwise, data, pairwise, 0)` with data `xᵀ·lin` and pairwise `xᵀ·Q·x` |
| Sparse.QuadraticFormTranspose | RAPter/include/rapter/optimization/impl/solver.hpp:376 | `xᵀ·Q·x` is unchanged by transposing `Q` |
| Sparse.LinearFormOfBinary | RAPter/include/rapter/optimization/impl/solver.hpp:375 | for a 0/1 vector the data cost is the total weight of the chosen variables |
| Sparse.QuadraticFormOfBinary | RAPter/include/rapter/optimization/impl/solver.hpp:376 | for a 0/1 vector the pairwise cost is the total weight of entries joining two chosen variables |
| Energy.CheckSolution | RAPter/include/rapter/optimization/impl/solver.hpp:484-527 | energy(2) is `weights(2)·Σxᵢ`, energy(0) + energy(2) is `xᵀ·linObj`, energy(1) is `xᵀ·Qo·x` |
| Energy.ComplexityEnergy | RAPter/include/rapter/optimization/impl/solver.hpp:491-518 | energy(2), `xᵀ` times the column holding `weights(2)` in every row, is `weights(2)·Σxᵢ` |
| Energy.DataEnergy | RAPter/include/rapter/optimization/impl/solver.hpp:500-508 | energy(0), `xᵀ·(linObj − complexity)`, is `xᵀ·linObj − weights(2)·Σxᵢ` |
| Sparse.LinearFormOfConstantColumn | RAPter/include/rapter/optimization/impl/solver.hpp:491-518 | `xᵀ` times the constant column `w` is `w·Σxᵢ` |
| Sparse.LinearFormConstant | RAPter/include/rapter/optimization/impl/solver.hpp:491-493 | `xᵀ` times the first `n` rows of the constant column `w` is `w` times the sum of the first `n` entries |
| Sparse.LinearFormDifference | RAPter/include/rapter/optimization/impl/solver.hpp:500-508 | `xᵀ·(a − b) = xᵀ·a − xᵀ·b` when `a − b` holds the entries of `a` and the negated entries of `b` |
| Sparse.LinearFormConcat | RAPter/include/rapter/optimization/impl/solver.hpp:500 | the product over two lists of stored entries is the sum of the products over each |
| Sparse.LinearFormNegated | RAPter/include/rapter/optimization/impl/solver.hpp:500 | negating every stored entry negates the product |
| Solver.SolverFromName | RAPter/include/rapter/optimization/impl/solver.hpp:42-70 | `bonmin` and `gurobi` select their backends, and every other name, unknown ones included, leaves the initial MOSEK |
| Solver.AttemptStep | RAPter/include/rapter/optimization/impl/solver.hpp:122-221 | reference definition of one pass: the status left in `err` and whether `attemptCount` moves; characterized by `AttemptAcceptedIff`, `AttemptCountedIff` and `StallsIff` |
| Solver.ConfigEffects | RAPter/include/rapter/optimization/impl/solver.hpp:153-177 | the parametrization of attempt `k`; `RunNodeLimits` shows the node limits 100 and 200 on Bonmin and nothing on other backends |
| Solver.Run | RAPter/include/rapter/optimization/impl/solver.hpp:120-221 | reference definition of the whole loop, attempt by attempt; `Solve` is proved equal to it, and `RunOutcomeIff`, `RunEffects` and `RunNodeLimits` characterize it |
| OutputPaths.PrimitivesPath | RAPter/include/rapter/optimization/impl/solver.hpp:347 | `<dir><rod>/primitives_it<n>.<solver>.csv`; `PrimitivesPathInjective` and `DiagPathIsNotPrimitivesPath` characterize it |
| OutputPaths.DiagPath | RAPter/include/rapter/optimization/impl/solver.hpp:353 | `<dir><rod>/diag_it<n>.gv`; `DiagPathInjective` and `DiagPathIsNotPrimitivesPath` characterize it |
| OutputPaths.SolutionPath | RAPter/include/rapter/optimization/impl/solver.hpp:242 | `<project>/x.csv`, the first write after acceptance by `SolutionEffectsLayout` |
| OutputPaths.LedgerPath | RAPter/include/rapter/optimization/impl/solver.hpp:380 | `<parent of project>/<energy file>` with no `./` fallback; `LedgerOfBareProject` shows the root-level result |
| Sparse.LinearForm | RAPter/include/rapter/optimization/impl/solver.hpp:375 | coefficient (0,0) of `xᵀ·M`; `LinearFormOfBinary`, `LinearFormConcat`, `LinearFormNegated` and `LinearFormOfConstantColumn` characterize it |
| Sparse.QuadraticForm | RAPter/include/rapter/optimization/impl/solver.hpp:376 | coefficient (0,0) of `xᵀ·Q·x`; `QuadraticFormOfBinary` and `QuadraticFormTranspose` characterize it |
| Primitives.Select | RAPter/include/rapter/optimization/impl/solver.hpp:266-296 | the two-level walk's output list, names and positions; `SelectedIsKeptImages`, `SelectedLength`, `ChosenNamesDomain` and `ChosenNamesAt` characterize it |
| Primitives.PrimName | RAPter/include/rapter/optimization/impl/solver.hpp:287-288 | the node name `p<GID>,<DIR_GID>`; `ChosenNamesAt` says which node gets it |
| Diagnostics.ClusterNames | RAPter/include/rapter/optimization/impl/solver.hpp:302-315 | the `<id>_on` names of the chosen cluster variables; characterized by `ClusterNamesMembers` |
| Diagnostics.OnNameInjective | RAPter/include/rapter/optimization/impl/solver.hpp:308 | distinct cluster variables get distinct `<id>_on` node names |
| Diagnostics.OnName | RAPter/include/rapter/optimization/impl/solver.hpp:308 | the name `<id>_on`; `ClusterNamesMembers` says it is the only cluster name given |
| Diagnostics.MatrixEdges | RAPter/include/rapter/optimization/impl/solver.hpp:326-333 | the edges of one constraint matrix; characterized by `MatrixEdgesMembers` and `MatrixEdgesCount` |
| Diagnostics.ConstraintEdges | RAPter/include/rapter/optimization/impl/solver.hpp:319-335 | the edges of all constraint matrices by index; characterized by `ConstraintEdgesMembers` |
| Numeric.RoundHalfAway | RAPter/include/rapter/optimization/impl/solver.hpp:246 | `round` gives the integer within one half of `v`, taking halves away from zero; `ChosenIffHalf` turns the `> 0` test into `v >= 1/2` |
| Numeric.AccumulateFrom | RAPter/include/rapter/optimization/impl/solver.hpp:214 | the `int`-accumulator fold; `AccumulateIntegral`, `AccumulateNonNegative`, `AccumulateReachesOne`, `TruncationLosesFractions` and `CancellationGivesZero` characterize it |

## Left out

- Command-line parsing (`pcl::console`, lines 52-118) is not modelled. The options are plain inputs. Its EXIT_FAILURE does not matter, because the loop overwrites `err` before the first attempt.
- The optimizer (`read`, `update`, `optimize`, `getOkCode`, `setAlgorithm`, `setStartingPoint`) is a foreign library. Its answers are oracle inputs, and configuring it is recorded as a `Configure` effect.
- File and graph I/O (`writeSparseMatrix`, `readPrimitives`, `saveBackup`, `savePrimitives`, `Diagnostic::draw`, the ledger's `ofstream`) is recorded as effects and not performed. Console logging and `verbose` are left out.
- The parent directories computed by `boost::filesystem` and the number read by `util::parseIteration` are input values. Reading the candidates file is likewise an input (`Candidates.prims`).
- `Diagnostic` is modelled only through the three setters the solver calls; diagnostic.hpp is not part of this model.
- The value of `DO_RETRY` is defined in solver.h, which is not part of this model. It is fixed at 2, and only its difference from 0 and 1 matters.
- Floating-point rounding of the Eigen products and of `round` is not modelled; the arithmetic is exact over `real`.
- The sparse matrices' storage order is taken to be the order of the triplet sequence.
- Overflow of the `int` accumulator and of the `int(round(...))` casts is not modelled.
- The first value given to `out_prim_path` (line 341) is dead and is not modelled.
- The exception thrown when Bonmin is requested but not compiled in (lines 71-74) is not modelled; Bonmin support is assumed.
- `Solver::datafit` (lines 400-477) is unfinished code that computes nothing, and is not modelled.
- Solver.Solve: requires `Ready`, which excludes three kinds of run that the source does not.
  - A backend other than Bonmin with a positive time limit is excluded, because the source then calls `setTimeLimit` on a null problem.
  - An attempt that stalls is excluded. With a fixed answer per attempt, an uncounted retry would repeat forever. `StallsIff` characterizes these attempts.
  - An accepted vector that does not `Fits` the problem is excluded. `Fits` asks the vector to be at least as long as the number of non-SMALL candidates and to cover every row of `lin` and every row and column of `quad`. The source checks neither: it reads `x_out[prim_id]` without a bounds check (line 280) and multiplies without checking dimensions (lines 375-376), and what it does out of bounds is undefined, so the model does not say.
- Solver.Run: gives each attempt one fixed answer. A real optimizer may answer differently when the same attempt is repeated, and that is not captured.
