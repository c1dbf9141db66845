/** `Solver::solve`: drives the external MIQCP optimizer through at most two
    attempts with an escalating node budget, judges its output, and on
    success writes the sparse solution, the selected primitives, the
    interaction graph and one energy-ledger row.

    The optimizer is an oracle: for attempt `k` it answers with the return
    codes of `read`, `update` and `optimize` and the vector `optimize` fills
    in. Files are not touched; every write the solver makes is recorded, in
    order, as an `Effect`. */
module Solver {
  import opened Wrappers
  import opened Sequences
  import opened Numeric
  import opened Sparse
  import opened Energy
  import opened Primitives
  import opened Diagnostics
  import opened OutputPaths

  const ExitSuccess: int := 0
  const ExitFailure: int := 1
  /** The "try again" status; its value is defined outside the solver source,
      and the model only relies on it differing from the two exit codes. */
  const DoRetry: int := 2
  /** The loop bound `attemptCount < 2`. */
  const MaxAttempts: nat := 2

  datatype Backend = Mosek | Bonmin | Gurobi

  /** The `--solver` name as the solver compares it. */
  function ParseSolver(name: string): Option<Backend> {
    if name == "mosek" then Some(Mosek)
    else if name == "bonmin" then Some(Bonmin)
    else if name == "gurobi" then Some(Gurobi)
    else None
  }

  function BackendName(b: Backend): string {
    match b
    case Mosek => "mosek"
    case Bonmin => "bonmin"
    case Gurobi => "gurobi"
  }

  /** The backend the loop runs with: an unknown name leaves the initial MOSEK. */
  function SolverFromName(name: string): (b: Backend)
    ensures b == Bonmin <==> name == "bonmin"
    ensures b == Gurobi <==> name == "gurobi"
    ensures b == Mosek <==> name != "bonmin" && name != "gurobi"
  {
    match ParseSolver(name)
    case Some(b) => b
    case None => Mosek
  }

  /** The candidates file, as read by the primitive reader and as seen by the
      path utilities: its parent directory and the iteration parsed from it. */
  datatype Candidates = Candidates(path: string, parentDir: string, parsedIteration: int, prims: seq<seq<Primitive>>)

  /** The invocation parameters (`projectParent` is the parent directory of
      `projectPath`). */
  datatype Options = Options(
    solverName: string,
    projectPath: string,
    projectParent: string,
    maxTime: real,
    bmode: int,
    rod: string,
    x0Path: string,
    energyPath: string,
    candidates: Option<Candidates>)

  /** The problem as the optimizer holds it after `read`: its ok code, the
      linear and quadratic objectives and the quadratic constraint matrices. */
  datatype Problem = Problem(okCode: int, lin: seq<Triplet>, quad: seq<Triplet>, constraints: seq<seq<Triplet>>)

  /** The optimizer's answers on one attempt. */
  datatype Answer = Answer(readCode: int, updateCode: int, optimizeCode: int, xOut: seq<real>)

  /** Entry `index` of the sparse column written to `x.csv`. */
  datatype SparseEntry = SparseEntry(index: nat, value: real)

  /** What the solver does to the outside world, in order. */
  datatype Effect =
    | Configure(timeLimit: Option<real>, algorithm: int, nodeLimit: int, startingPoint: Option<string>)
    | WriteSparseColumn(path: string, rows: nat, entries: seq<SparseEntry>)
    | Draw(path: string, graph: Graph)
    | SaveBackup(path: string)
    | SavePrimitives(path: string, prims: seq<seq<Primitive>>)
    | AppendEnergy(path: string, row: LedgerRow)

  /** The returned status and the effects of a run. */
  datatype Outcome = Outcome(err: int, effects: seq<Effect>)

  function Prepend(e: seq<Effect>, o: Outcome): Outcome {
    Outcome(o.err, e + o.effects)
  }

  // ---------------------------------------------------------------------
  // One attempt

  /** The output test: no vector, or a vector whose `int`-accumulated sum is zero. */
  predicate Degenerate(x: seq<real>) {
    |x| == 0 || AccumulateInt(x) == 0
  }

  /** The status an attempt leaves in `err`, and whether it counted as a
      failed attempt (`++attemptCount`). */
  datatype Step = Step(err: int, counted: bool)

  function AttemptStep(o: Options, p: Problem, a: Answer): Step {
    if SolverFromName(o.solverName) != Bonmin then Step(ExitFailure, false)
    else if a.readCode != ExitSuccess then Step(a.readCode, false)
    else if a.updateCode != p.okCode then Step(DoRetry, true)
    else if Degenerate(a.xOut) then Step(DoRetry, true)
    else if a.optimizeCode != p.okCode then Step(a.optimizeCode, false)
    else Step(ExitSuccess, false)
  }

  /** An attempt that asks for a retry without counting itself; the loop
      would run it again with the same configuration. */
  predicate Stalls(o: Options, p: Problem, a: Answer) {
    AttemptStep(o, p, a).err == DoRetry && !AttemptStep(o, p, a).counted
  }

  /** The parametrization of attempt `k`: time limit, algorithm, node limit
      `(1 + k) * 100` and starting point, made for the Bonmin backend. */
  function ConfigEffects(o: Options, k: nat): seq<Effect> {
    if SolverFromName(o.solverName) == Bonmin then
      [Configure(if o.maxTime > 0.0 then Some(o.maxTime) else None,
                 o.bmode,
                 (1 + k) * 100,
                 if o.x0Path != "" then Some(o.x0Path) else None)]
    else []
  }

  // ---------------------------------------------------------------------
  // Post-processing of an accepted vector

  /** The chosen entries of `x`, in index order. */
  function SparseEntries(x: seq<real>): seq<SparseEntry>
    decreases |x|
  {
    if x == [] then []
    else
      var i := |x| - 1;
      SparseEntries(x[..i]) + (if Chosen(x[i]) then [SparseEntry(i, x[i])] else [])
  }

  /** The accepted vector is large enough for the products and the selection. */
  predicate Fits(p: Problem, c: Option<Candidates>, x: seq<real>) {
    && RowsBelow(p.lin, |x|)
    && InBounds(p.quad, |x|)
    && (c.Some? ==> NonSmallCount(Flatten(c.value.prims)) <= |x|)
  }

  /** The interaction graph drawn for candidates `c`. */
  function GraphOf(p: Problem, c: Candidates, x: seq<real>): Graph
    requires NonSmallCount(Flatten(c.prims)) <= |x|
  {
    var flat := Flatten(c.prims);
    Graph(ChosenNames(flat, x) + ClusterNames(x, NonSmallCount(flat), |x|),
          ChosenPositions(flat, x),
          ConstraintEdges(p.constraints))
  }

  /** Graph, backup and primitives file for candidates `c`. */
  function CandidateEffects(o: Options, p: Problem, c: Candidates, x: seq<real>): seq<Effect>
    requires NonSmallCount(Flatten(c.prims)) <= |x|
  {
    var dir := OutputDir(c.parentDir);
    var iteration := Iteration(c.parsedIteration);
    var primPath := PrimitivesPath(dir, o.rod, iteration, o.solverName);
    [Draw(DiagPath(dir, o.rod, iteration), GraphOf(p, c, x)),
     SaveBackup(primPath),
     SavePrimitives(primPath, [Selected(Flatten(c.prims), x)])]
  }

  /** Everything written after an accepted attempt. */
  function SolutionEffects(o: Options, p: Problem, x: seq<real>): seq<Effect>
    requires Fits(p, o.candidates, x)
  {
    [WriteSparseColumn(SolutionPath(o.projectPath), |x|, SparseEntries(x))]
      + (if o.candidates.Some? then CandidateEffects(o, p, o.candidates.value, x) else [])
      + [AppendEnergy(LedgerPath(o.projectParent, o.energyPath), Ledger(x, p.lin, p.quad))]
  }

  // ---------------------------------------------------------------------
  // The whole run

  /** What the source needs of its inputs: a backend other than Bonmin only
      with no time limit (otherwise the time limit is set through a null
      problem), an answer per attempt, no attempt that stalls, and an
      accepted vector that fits the problem and the candidates. */
  predicate Ready(o: Options, p: Problem, answers: seq<Answer>) {
    && |answers| == MaxAttempts
    && (SolverFromName(o.solverName) == Bonmin || o.maxTime <= 0.0)
    && forall k :: 0 <= k < |answers| ==>
         && !Stalls(o, p, answers[k])
         && (AttemptStep(o, p, answers[k]).err == ExitSuccess ==> Fits(p, o.candidates, answers[k].xOut))
  }

  /** The run from attempt `k` on. */
  function Run(o: Options, p: Problem, answers: seq<Answer>, k: nat): Outcome
    requires Ready(o, p, answers) && k <= MaxAttempts
    decreases MaxAttempts - k
  {
    if k == MaxAttempts then Outcome(DoRetry, [])
    else
      var a := answers[k];
      var s := AttemptStep(o, p, a);
      if s.err == DoRetry then Prepend(ConfigEffects(o, k), Run(o, p, answers, k + 1))
      else Outcome(s.err, ConfigEffects(o, k) + (if s.err == ExitSuccess then SolutionEffects(o, p, a.xOut) else []))
  }

  /** Attempt `k` of a run: a retry is counted and leads on to attempt
      `k + 1`, any other status ends the run. */
  lemma RunStep(o: Options, p: Problem, answers: seq<Answer>, k: nat)
    requires Ready(o, p, answers) && k < MaxAttempts
    ensures AttemptStep(o, p, answers[k]).err == DoRetry ==>
      && AttemptStep(o, p, answers[k]).counted
      && Run(o, p, answers, k) == Prepend(ConfigEffects(o, k), Run(o, p, answers, k + 1))
    ensures AttemptStep(o, p, answers[k]).err != DoRetry ==>
      Run(o, p, answers, k) == Outcome(AttemptStep(o, p, answers[k]).err,
                                       ConfigEffects(o, k) + (if AttemptStep(o, p, answers[k]).err == ExitSuccess
                                                              then SolutionEffects(o, p, answers[k].xOut) else []))
    ensures AttemptStep(o, p, answers[k]).err == ExitSuccess ==> Fits(p, o.candidates, answers[k].xOut)
  {
    assert !Stalls(o, p, answers[k]);
  }

  lemma PrependAssoc(a: seq<Effect>, b: seq<Effect>, r: Outcome)
    ensures Prepend(a, Prepend(b, r)) == Prepend(a + b, r)
  {
    assert a + (b + r.effects) == (a + b) + r.effects;
  }

  // ---------------------------------------------------------------------
  // The solver's methods

  /** The sparse column vector written to `x.csv`. */
  method SparseSolution(x: seq<real>) returns (sp: seq<SparseEntry>)
    ensures sp == SparseEntries(x)
  {
    sp := [];
    var i := 0;
    while i < |x|
      invariant 0 <= i <= |x|
      invariant sp == SparseEntries(x[..i])
    {
      assert x[..i + 1][..i] == x[..i];
      if Chosen(x[i]) {
        sp := sp + [SparseEntry(i, x[i])];
      }
      i := i + 1;
    }
    assert x[..|x|] == x;
  }

  /** The walk over the candidates: SMALL ones are copied, the others consume
      the next decision index and are re-tagged ACTIVE, copied, named and
      positioned when their value is on. */
  method SelectPrimitives(prims: seq<seq<Primitive>>, x: seq<real>, diag: Diagnostic)
    returns (tagged: seq<seq<Primitive>>, selected: seq<Primitive>, primId: nat)
    requires NonSmallCount(Flatten(prims)) <= |x|
    modifies diag
    ensures |tagged| == |prims| && forall l :: 0 <= l < |prims| ==> |tagged[l]| == |prims[l]|
    ensures Flatten(tagged) == Retagged(Flatten(prims), x)
    ensures selected == Selected(Flatten(prims), x)
    ensures primId == NonSmallCount(Flatten(prims))
    ensures diag.names == old(diag.names) + ChosenNames(Flatten(prims), x)
    ensures diag.positions == old(diag.positions) + ChosenPositions(Flatten(prims), x)
    ensures diag.edges == old(diag.edges)
  {
    tagged, selected, primId := prims, [], 0;
    var l := 0;
    ghost var visited: seq<Primitive> := [];
    while l < |prims|
      invariant 0 <= l <= |prims|
      invariant |tagged| == |prims| && forall i :: 0 <= i < |prims| ==> |tagged[i]| == |prims[i]|
      invariant forall i :: l <= i < |prims| ==> tagged[i] == prims[i]
      invariant visited == Flatten(prims[..l])
      invariant NonSmallCount(visited) <= NonSmallCount(Flatten(prims))
      invariant Flatten(tagged[..l]) == Retagged(visited, x)
      invariant selected == Selected(visited, x)
      invariant primId == NonSmallCount(visited)
      invariant diag.names == old(diag.names) + ChosenNames(visited, x)
      invariant diag.positions == old(diag.positions) + ChosenPositions(visited, x)
      invariant diag.edges == old(diag.edges)
    {
      FlattenStep(prims, l);
      FlattenPrefixCount(prims, l + 1);
      NonSmallCountConcat(visited, prims[l]);
      var row;
      row, selected, primId := SelectRow(visited, prims[l], x, diag, selected, primId, old(diag.names), old(diag.positions));
      FlattenUpdate(tagged, l, row);
      tagged := tagged[l := row];
      visited := visited + prims[l];
      l := l + 1;
    }
    assert prims[..l] == prims && tagged[..l] == tagged;
  }

  /** One patch of the walk: `before` are the candidates already visited,
      `names0` and `positions0` what the graph held before the walk began. */
  method SelectRow(ghost before: seq<Primitive>, prims: seq<Primitive>, x: seq<real>, diag: Diagnostic,
                   selected0: seq<Primitive>, primId0: nat,
                   ghost names0: map<int, string>, ghost positions0: map<int, Point>)
    returns (row: seq<Primitive>, selected: seq<Primitive>, primId: nat)
    requires NonSmallCount(before) <= NonSmallCount(before + prims) <= |x|
    requires selected0 == Selected(before, x) && primId0 == NonSmallCount(before)
    requires diag.names == names0 + ChosenNames(before, x)
    requires diag.positions == positions0 + ChosenPositions(before, x)
    modifies diag
    ensures |row| == |prims| && Retagged(before + prims, x) == Retagged(before, x) + row
    ensures selected == Selected(before + prims, x)
    ensures primId == NonSmallCount(before + prims)
    ensures diag.names == names0 + ChosenNames(before + prims, x)
    ensures diag.positions == positions0 + ChosenPositions(before + prims, x)
    ensures diag.edges == old(diag.edges)
  {
    row, selected, primId := prims, selected0, primId0;
    ghost var done := before;
    var l1 := 0;
    while l1 < |prims|
      invariant 0 <= l1 <= |prims| && |row| == |prims|
      invariant forall i :: l1 <= i < |prims| ==> row[i] == prims[i]
      invariant done == before + prims[..l1]
      invariant NonSmallCount(done) <= |x|
      invariant Retagged(before, x) + row[..l1] == Retagged(done, x)
      invariant selected == Selected(done, x)
      invariant primId == NonSmallCount(done)
      invariant diag.names == names0 + ChosenNames(done, x)
      invariant diag.positions == positions0 + ChosenPositions(done, x)
      invariant diag.edges == old(diag.edges)
    {
      var p := row[l1];
      assert p == prims[l1];
      TakeSnoc(prims, l1);
      SnocAssoc(before, prims[..l1], p);
      SplitAt(before, prims, l1 + 1);
      NonSmallCountConcat(done + [p], prims[l1 + 1..]);
      ghost var old_row := row;
      var put;
      put, selected, primId := SelectOne(done, p, x, diag, selected, primId, names0, positions0);
      row := row[l1 := put];
      UpdatePrefix(old_row, l1, put);
      SnocAssoc(Retagged(before, x), old_row[..l1], put);
      done := done + [p];
      l1 := l1 + 1;
    }
    assert prims[..l1] == prims && row[..l1] == row;
  }

  /** One candidate of the walk: `put` is what stays in its place. */
  method SelectOne(ghost done: seq<Primitive>, p: Primitive, x: seq<real>, diag: Diagnostic,
                   selected0: seq<Primitive>, primId0: nat,
                   ghost names0: map<int, string>, ghost positions0: map<int, Point>)
    returns (put: Primitive, selected: seq<Primitive>, primId: nat)
    requires NonSmallCount(done) <= NonSmallCount(done + [p]) <= |x|
    requires selected0 == Selected(done, x) && primId0 == NonSmallCount(done)
    requires diag.names == names0 + ChosenNames(done, x)
    requires diag.positions == positions0 + ChosenPositions(done, x)
    modifies diag
    ensures Retagged(done + [p], x) == Retagged(done, x) + [put]
    ensures selected == Selected(done + [p], x)
    ensures primId == NonSmallCount(done + [p])
    ensures diag.names == names0 + ChosenNames(done + [p], x)
    ensures diag.positions == positions0 + ChosenPositions(done + [p], x)
    ensures diag.edges == old(diag.edges)
  {
    SelectionStep(done, p, x);
    put, selected, primId := p, selected0, primId0;
    if p.status == Small {
      // SMALL candidates pass through untouched and take no decision index
      selected := selected + [p];
    } else {
      // any other candidate owns the next decision variable
      if Chosen(x[primId]) {
        put := Activated(p);
        selected := selected + [put];
        UnionUpdate(names0, ChosenNames(done, x), primId, PrimName(put));
        UnionUpdate(positions0, ChosenPositions(done, x), primId, put.anchor);
        diag.SetNodeName(primId, PrimName(put));
        diag.SetNodePos(primId, put.anchor);
      }
      // chosen or not, the candidate used up its index
      primId := primId + 1;
    }
  }

  /** Names `<id>_on` for the cluster variables from `start` on whose value is
      on; the `_off` name is formatted but never given to the graph. */
  method AddClusterNodes(diag: Diagnostic, x: seq<real>, start: nat)
    requires start <= |x|
    modifies diag
    ensures diag.names == old(diag.names) + ClusterNames(x, start, |x|)
    ensures diag.positions == old(diag.positions) && diag.edges == old(diag.edges)
  {
    var id := start;
    assert ClusterNames(x, start, start) == map[];
    while id < |x|
      invariant start <= id <= |x|
      invariant diag.names == old(diag.names) + ClusterNames(x, start, id)
      invariant diag.positions == old(diag.positions) && diag.edges == old(diag.edges)
    {
      if Chosen(x[id]) {
        UnionUpdate(old(diag.names), ClusterNames(x, start, id), id, OnName(id));
        diag.SetNodeName(id, OnName(id));
      }
      id := id + 1;
    }
  }

  /** One edge per nonzero stored entry of every quadratic constraint matrix;
      matrices without stored entries are skipped. */
  method AddConstraintEdges(diag: Diagnostic, constraints: seq<seq<Triplet>>)
    modifies diag
    ensures diag.edges == old(diag.edges) + ConstraintEdges(constraints)
    ensures diag.names == old(diag.names) && diag.positions == old(diag.positions)
  {
    var j := 0;
    while j < |constraints|
      invariant 0 <= j <= |constraints|
      invariant diag.edges == old(diag.edges) + ConstraintEdges(constraints[..j])
      invariant diag.names == old(diag.names) && diag.positions == old(diag.positions)
    {
      var qk := constraints[j];
      ConstraintEdgesStep(constraints, j);
      if |qk| == 0 {
        j := j + 1;
        continue;
      }
      AddMatrixEdges(diag, qk);
      j := j + 1;
    }
    assert constraints[..j] == constraints;
  }

  /** The inner loop: one edge per nonzero stored entry of `qk`, in storage order. */
  method AddMatrixEdges(diag: Diagnostic, qk: seq<Triplet>)
    modifies diag
    ensures diag.edges == old(diag.edges) + MatrixEdges(qk)
    ensures diag.names == old(diag.names) && diag.positions == old(diag.positions)
  {
    var e := 0;
    while e < |qk|
      invariant 0 <= e <= |qk|
      invariant diag.edges == old(diag.edges) + MatrixEdges(qk[..e])
      invariant diag.names == old(diag.names) && diag.positions == old(diag.positions)
    {
      MatrixEdgesStep(qk, e);
      if qk[e].value != 0.0 {
        diag.AddEdge(qk[e].row, qk[e].col);
      }
      e := e + 1;
    }
    assert qk[..e] == qk;
  }

  /** Everything the solver does with an accepted vector `x`. */
  method SaveSolution(o: Options, p: Problem, x: seq<real>) returns (effects: seq<Effect>)
    requires Fits(p, o.candidates, x)
    ensures effects == SolutionEffects(o, p, x)
  {
    var diag := new Diagnostic(p.lin, p.quad);
    var sp := SparseSolution(x);
    effects := [WriteSparseColumn(SolutionPath(o.projectPath), |x|, sp)];
    if o.candidates.Some? {
      var saved := SaveCandidates(o, p, o.candidates.value, x, diag);
      effects := effects + saved;
    }
    var row := Ledger(x, p.lin, p.quad);
    effects := effects + [AppendEnergy(LedgerPath(o.projectParent, o.energyPath), row)];
  }

  /** The `--candidates` branch: select, build the graph, draw it and save
      the selection after backing up the previous file. */
  method SaveCandidates(o: Options, p: Problem, c: Candidates, x: seq<real>, diag: Diagnostic)
    returns (effects: seq<Effect>)
    requires NonSmallCount(Flatten(c.prims)) <= |x|
    requires diag.names == map[] && diag.positions == map[] && diag.edges == []
    modifies diag
    ensures effects == CandidateEffects(o, p, c, x)
    ensures diag.Snapshot() == GraphOf(p, c, x)
  {
    var tagged, outPrims, primId := SelectPrimitives(c.prims, x, diag);
    var clusterVarsStart := primId;
    AddClusterNodes(diag, x, clusterVarsStart);
    AddConstraintEdges(diag, p.constraints);
    assert diag.names == ChosenNames(Flatten(c.prims), x) + ClusterNames(x, clusterVarsStart, |x|);
    assert diag.positions == ChosenPositions(Flatten(c.prims), x);
    assert diag.edges == ConstraintEdges(p.constraints);
    var graph := diag.Snapshot();
    assert graph == GraphOf(p, c, x);
    var dir := OutputDir(c.parentDir);
    var iteration := Iteration(c.parsedIteration);
    var primPath := PrimitivesPath(dir, o.rod, iteration, o.solverName);
    effects := [Draw(DiagPath(dir, o.rod, iteration), graph),
                SaveBackup(primPath),
                SavePrimitives(primPath, [outPrims])];
  }

  /** The attempt loop. */
  method Solve(o: Options, p: Problem, answers: seq<Answer>) returns (err: int, effects: seq<Effect>)
    requires Ready(o, p, answers)
    ensures Outcome(err, effects) == Run(o, p, answers, 0)
  {
    var solver := SolverFromName(o.solverName);
    var attemptCount := 0;
    effects := [];
    err := DoRetry; // start as a retry so the first attempt runs
    while err == DoRetry && attemptCount < MaxAttempts
      invariant 0 <= attemptCount <= MaxAttempts
      invariant Run(o, p, answers, 0) == if err == DoRetry then Prepend(effects, Run(o, p, answers, attemptCount)) else Outcome(err, effects)
      decreases MaxAttempts - attemptCount, if err == DoRetry then 1 else 0
    {
      ghost var k := attemptCount;
      ghost var before := effects;
      RunStep(o, p, answers, k);
      var attemptEffects;
      err, attemptCount, attemptEffects := Attempt(o, p, solver, answers[attemptCount], attemptCount);
      effects := effects + attemptEffects;
      if err == DoRetry {
        PrependAssoc(before, attemptEffects, Run(o, p, answers, k + 1));
      }
    }
    if err == DoRetry {
      assert effects + [] == effects;
    }
  }

  /** One pass of the loop body: pick the backend, read, parametrize,
      update, optimize, judge the vector and, when it is accepted, save. */
  method Attempt(o: Options, p: Problem, solver: Backend, a: Answer, attemptCount: nat)
    returns (err: int, nextCount: nat, effects: seq<Effect>)
    requires solver == SolverFromName(o.solverName)
    requires solver == Bonmin || o.maxTime <= 0.0
    requires AttemptStep(o, p, a).err == ExitSuccess ==> Fits(p, o.candidates, a.xOut)
    ensures err == AttemptStep(o, p, a).err
    ensures nextCount == attemptCount + (if AttemptStep(o, p, a).counted then 1 else 0)
    ensures effects == ConfigEffects(o, attemptCount)
                       + (if err == ExitSuccess then SolutionEffects(o, p, a.xOut) else [])
  {
    nextCount := attemptCount;
    effects := [];
    err := ExitSuccess; // each attempt starts from success

    // select solver
    if solver != Bonmin {
      err := ExitFailure;
    }

    // read
    if err == ExitSuccess {
      err := err + a.readCode;
    }

    // parametrize
    if solver == Bonmin {
      effects := [Configure(if o.maxTime > 0.0 then Some(o.maxTime) else None,
                            o.bmode,
                            (1 + attemptCount) * 100,
                            if o.x0Path != "" then Some(o.x0Path) else None)];
    }

    // update
    var r := 0;
    if err == ExitSuccess {
      r := a.updateCode;
    }

    // optimize
    if err == ExitSuccess {
      var xOut: seq<real> := [];
      if r == p.okCode {
        r := a.optimizeCode;
        xOut := a.xOut;
        if r != p.okCode {
          err := r;
        }
      }
      if |xOut| == 0 || AccumulateInt(xOut) == 0 {
        err := DoRetry;
        nextCount := nextCount + 1;
      }
      if err == ExitSuccess {
        var saved := SaveSolution(o, p, xOut);
        effects := effects + saved;
      }
    }
  }
}
