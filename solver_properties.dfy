/** What a run of the solver does, stated on the oracle's answers: when an
    attempt is accepted, retried or fatal, what the whole run returns, which
    node limits are configured, and what is written after a success. */
module SolverProperties {
  import opened Wrappers
  import opened Sequences
  import opened Numeric
  import opened Energy
  import opened Primitives
  import opened Diagnostics
  import opened OutputPaths
  import opened Solver

  // ---------------------------------------------------------------------
  // Backend names

  /** The three recognised names map to their backend and back. */
  lemma ParseSolverIff(name: string, b: Backend)
    ensures ParseSolver(name) == Some(b) <==> name == BackendName(b)
  {
  }

  // ---------------------------------------------------------------------
  // One attempt

  /** An attempt is accepted iff the backend is Bonmin, `read` succeeded,
      `update` returned the ok code, the vector is not degenerate and
      `optimize` returned the ok code or the code of success itself. */
  lemma AttemptAcceptedIff(o: Options, p: Problem, a: Answer)
    ensures AttemptStep(o, p, a).err == ExitSuccess
        <==> && SolverFromName(o.solverName) == Bonmin
             && a.readCode == ExitSuccess
             && a.updateCode == p.okCode
             && !Degenerate(a.xOut)
             && (a.optimizeCode == p.okCode || a.optimizeCode == ExitSuccess)
  {
  }

  /** The attempt counter moves iff `read` succeeded and the vector is
      missing (`update` failed) or degenerate; such an attempt asks for a
      retry. */
  lemma AttemptCountedIff(o: Options, p: Problem, a: Answer)
    ensures AttemptStep(o, p, a).counted
        <==> && SolverFromName(o.solverName) == Bonmin
             && a.readCode == ExitSuccess
             && (a.updateCode != p.okCode || Degenerate(a.xOut))
    ensures AttemptStep(o, p, a).counted ==> AttemptStep(o, p, a).err == DoRetry
  {
  }

  /** The loop repeats an attempt without counting it exactly when `read`,
      or `optimize` on a usable vector, reports the retry status itself. */
  lemma StallsIff(o: Options, p: Problem, a: Answer)
    ensures Stalls(o, p, a)
        <==> && SolverFromName(o.solverName) == Bonmin
             && (|| a.readCode == DoRetry
                 || (&& a.readCode == ExitSuccess && a.updateCode == p.okCode
                     && !Degenerate(a.xOut) && a.optimizeCode == DoRetry && p.okCode != DoRetry))
  {
  }

  /** The empty vector and the vector of small fractions are both degenerate. */
  lemma DegenerateExamples()
    ensures Degenerate([])
    ensures Degenerate([0.6, 0.6]) && Degenerate([1.0, -1.0])
    ensures !Degenerate([1.0])
  {
    TruncationLosesFractions();
    CancellationGivesZero();
    assert AccumulateInt([1.0]) == AccumulateFrom(Trunc(0.0 + 1.0), []);
  }

  // ---------------------------------------------------------------------
  // The whole run

  predicate Accepted(o: Options, p: Problem, a: Answer) {
    AttemptStep(o, p, a).err == ExitSuccess
  }

  predicate Counted(o: Options, p: Problem, a: Answer) {
    AttemptStep(o, p, a).counted
  }

  /** An attempt on a backend other than Bonmin ends the run at once with
      the failure code, after configuring and writing nothing. */
  lemma RunUnsupportedBackend(o: Options, p: Problem, answers: seq<Answer>)
    requires Ready(o, p, answers) && SolverFromName(o.solverName) != Bonmin
    ensures Run(o, p, answers, 0) == Outcome(ExitFailure, [])
  {
  }

  /** A failed `read` (other than the retry status) ends the run with its
      code after the attempt's configuration. */
  lemma RunReadFailureFatal(o: Options, p: Problem, answers: seq<Answer>, k: nat)
    requires Ready(o, p, answers) && k < MaxAttempts
    requires SolverFromName(o.solverName) == Bonmin
    requires answers[k].readCode != ExitSuccess
    ensures Run(o, p, answers, k) == Outcome(answers[k].readCode, ConfigEffects(o, k))
  {
  }

  /** A non-ok `optimize` with a usable vector ends the run with its code,
      without a retry and without saving. */
  lemma RunOptimizeFailureStops(o: Options, p: Problem, answers: seq<Answer>, k: nat)
    requires Ready(o, p, answers) && k < MaxAttempts
    requires SolverFromName(o.solverName) == Bonmin
    requires answers[k].readCode == ExitSuccess && answers[k].updateCode == p.okCode
    requires !Degenerate(answers[k].xOut)
    requires answers[k].optimizeCode != p.okCode && answers[k].optimizeCode != ExitSuccess
    ensures Run(o, p, answers, k) == Outcome(answers[k].optimizeCode, ConfigEffects(o, k))
  {
  }

  /** Two counted attempts exhaust the loop: the run returns the retry
      status after configuring both attempts and writing nothing. */
  lemma RunDegenerateExhausts(o: Options, p: Problem, answers: seq<Answer>)
    requires Ready(o, p, answers)
    requires Counted(o, p, answers[0]) && Counted(o, p, answers[1])
    ensures Run(o, p, answers, 0) == Outcome(DoRetry, ConfigEffects(o, 0) + ConfigEffects(o, 1))
  {
    assert Run(o, p, answers, 1) == Prepend(ConfigEffects(o, 1), Run(o, p, answers, 2));
  }

  /** A run succeeds iff the first attempt is accepted or the first is
      counted and the second accepted; it returns the retry status iff both
      are counted. */
  lemma RunOutcomeIff(o: Options, p: Problem, answers: seq<Answer>)
    requires Ready(o, p, answers)
    ensures Run(o, p, answers, 0).err == ExitSuccess
        <==> || Accepted(o, p, answers[0])
             || (Counted(o, p, answers[0]) && Accepted(o, p, answers[1]))
    ensures Run(o, p, answers, 0).err == DoRetry
        <==> Counted(o, p, answers[0]) && Counted(o, p, answers[1])
  {
    var a0, a1 := answers[0], answers[1];
    assert !Stalls(o, p, a0) && !Stalls(o, p, a1);
    if AttemptStep(o, p, a0).err == DoRetry {
      assert Run(o, p, answers, 2) == Outcome(DoRetry, []);
      assert Run(o, p, answers, 0).err == Run(o, p, answers, 1).err;
    }
  }

  /** After a success the effects are the configurations of the attempts
      made and the writes for the accepted vector; after any other outcome
      only configurations were made. */
  lemma RunEffects(o: Options, p: Problem, answers: seq<Answer>)
    requires Ready(o, p, answers)
    ensures var r := Run(o, p, answers, 0);
      r.err == ExitSuccess ==>
        || (&& Accepted(o, p, answers[0])
            && r.effects == ConfigEffects(o, 0) + SolutionEffects(o, p, answers[0].xOut))
        || (&& Counted(o, p, answers[0]) && Accepted(o, p, answers[1])
            && r.effects == ConfigEffects(o, 0) + ConfigEffects(o, 1) + SolutionEffects(o, p, answers[1].xOut))
    ensures var r := Run(o, p, answers, 0);
      r.err != ExitSuccess ==> r.effects == ConfigEffects(o, 0) || r.effects == ConfigEffects(o, 0) + ConfigEffects(o, 1)
  {
    var a0 := answers[0];
    assert !Stalls(o, p, a0) && !Stalls(o, p, answers[1]);
    if AttemptStep(o, p, a0).err == DoRetry {
      assert Run(o, p, answers, 2) == Outcome(DoRetry, []);
      var r1 := Run(o, p, answers, 1);
      if r1.err != ExitSuccess && r1.err != DoRetry {
        assert r1.effects == ConfigEffects(o, 1) + [];
      }
      if r1.err == DoRetry {
        assert r1.effects == ConfigEffects(o, 1) + [];
      }
      assert Run(o, p, answers, 0).effects == ConfigEffects(o, 0) + r1.effects;
    } else {
      if AttemptStep(o, p, a0).err != ExitSuccess {
        assert Run(o, p, answers, 0).effects == ConfigEffects(o, 0) + [];
      }
    }
  }

  // ---------------------------------------------------------------------
  // Node limits

  /** The node limits configured, in order. */
  function NodeLimits(effects: seq<Effect>): seq<int>
    decreases |effects|
  {
    if effects == [] then []
    else (if effects[0].Configure? then [effects[0].nodeLimit] else []) + NodeLimits(effects[1..])
  }

  lemma {:induction false} NodeLimitsConcat(a: seq<Effect>, b: seq<Effect>)
    ensures NodeLimits(a + b) == NodeLimits(a) + NodeLimits(b)
    decreases |a|
  {
    if a == [] {
      assert a + b == b;
    } else {
      ConcatTail(a, b);
      NodeLimitsConcat(a[1..], b);
      var h := if a[0].Configure? then [a[0].nodeLimit] else [];
      assert NodeLimits(a + b) == h + NodeLimits(a[1..] + b);
      Assoc(h, NodeLimits(a[1..]), NodeLimits(b));
    }
  }

  lemma {:induction false} NodeLimitsNone(effects: seq<Effect>)
    requires forall i :: 0 <= i < |effects| ==> !effects[i].Configure?
    ensures NodeLimits(effects) == []
    decreases |effects|
  {
    if effects != [] {
      assert forall i :: 0 <= i < |effects[1..]| ==> effects[1..][i] == effects[i + 1];
      NodeLimitsNone(effects[1..]);
    }
  }

  /** Saving a solution configures nothing. */
  lemma SolutionEffectsConfigureNothing(o: Options, p: Problem, x: seq<real>)
    requires Fits(p, o.candidates, x)
    ensures NodeLimits(SolutionEffects(o, p, x)) == []
  {
    SolutionEffectsLayout(o, p, x);
    NodeLimitsNone(SolutionEffects(o, p, x));
  }

  /** Bonmin runs are configured with node limit 100 and, when the first
      attempt is counted, then 200; other backends are not configured. */
  lemma RunNodeLimits(o: Options, p: Problem, answers: seq<Answer>)
    requires Ready(o, p, answers)
    ensures NodeLimits(Run(o, p, answers, 0).effects)
         == if SolverFromName(o.solverName) != Bonmin then []
            else if Counted(o, p, answers[0]) then [100, 200]
            else [100]
  {
    RunEffects(o, p, answers);
    var r := Run(o, p, answers, 0);
    var c0, c1 := ConfigEffects(o, 0), ConfigEffects(o, 1);
    assert NodeLimits(c0) == (if SolverFromName(o.solverName) == Bonmin then [100] else []) by {
      if c0 != [] { assert c0[1..] == []; }
    }
    assert NodeLimits(c1) == (if SolverFromName(o.solverName) == Bonmin then [200] else []) by {
      if c1 != [] { assert c1[1..] == []; }
    }
    NodeLimitsConcat(c0, c1);
    RunOutcomeIff(o, p, answers);
    if r.err == ExitSuccess {
      if Accepted(o, p, answers[0]) {
        NodeLimitsConcat(c0, SolutionEffects(o, p, answers[0].xOut));
        SolutionEffectsConfigureNothing(o, p, answers[0].xOut);
      } else {
        NodeLimitsConcat(c0 + c1, SolutionEffects(o, p, answers[1].xOut));
        SolutionEffectsConfigureNothing(o, p, answers[1].xOut);
      }
    } else if Counted(o, p, answers[0]) {
      assert Run(o, p, answers, 2) == Outcome(DoRetry, []);
      var r1 := Run(o, p, answers, 1);
      assert r1.effects == c1 + [];
      assert r.effects == c0 + c1;
    } else {
      assert r.effects == c0 + [];
    }
  }

  // ---------------------------------------------------------------------
  // What a success writes

  /** The writes after an accepted vector: `x.csv` first and the ledger row
      last; with candidates, the graph, then the backup, then the
      primitives, the backup and the save naming the same file and the graph
      a different one. */
  lemma SolutionEffectsLayout(o: Options, p: Problem, x: seq<real>)
    requires Fits(p, o.candidates, x)
    ensures var e := SolutionEffects(o, p, x);
      && |e| == (if o.candidates.Some? then 5 else 2)
      && e[0] == WriteSparseColumn(SolutionPath(o.projectPath), |x|, SparseEntries(x))
      && e[|e| - 1] == AppendEnergy(LedgerPath(o.projectParent, o.energyPath), Ledger(x, p.lin, p.quad))
    ensures o.candidates.Some? ==>
      var e := SolutionEffects(o, p, x);
      var c := o.candidates.value;
      var primPath := PrimitivesPath(OutputDir(c.parentDir), o.rod, Iteration(c.parsedIteration), o.solverName);
      && e[1] == Draw(DiagPath(OutputDir(c.parentDir), o.rod, Iteration(c.parsedIteration)), GraphOf(p, c, x))
      && e[2] == SaveBackup(primPath)
      && e[3] == SavePrimitives(primPath, [Selected(Flatten(c.prims), x)])
      && e[1].path != e[2].path
  {
    if o.candidates.Some? {
      var c := o.candidates.value;
      var it := Iteration(c.parsedIteration);
      DiagPathIsNotPrimitivesPath(OutputDir(c.parentDir), o.rod, it, it, o.solverName);
    }
  }

  /** `x.csv` holds entry `i` with value `v` iff `x[i]` is on and `v == x[i]`. */
  lemma {:induction false} SparseEntriesMembers(x: seq<real>, i: nat, v: real)
    ensures SparseEntry(i, v) in SparseEntries(x) <==> i < |x| && Chosen(x[i]) && v == x[i]
    decreases |x|
  {
    if x != [] {
      var init := x[..|x| - 1];
      SparseEntriesMembers(init, i, v);
      if i < |init| {
        assert init[i] == x[i];
      }
    }
  }

  /** The entries of `x.csv` are in strictly increasing index order, all
      below the vector's length. */
  lemma {:induction false} SparseEntriesOrdered(x: seq<real>)
    ensures forall j :: 0 <= j < |SparseEntries(x)| ==> SparseEntries(x)[j].index < |x|
    ensures forall j, l :: 0 <= j < l < |SparseEntries(x)| ==> SparseEntries(x)[j].index < SparseEntries(x)[l].index
    decreases |x|
  {
    if x != [] {
      SparseEntriesOrdered(x[..|x| - 1]);
    }
  }

  /** The graph names exactly the decision variables whose value is on:
      `p<GID>,<DIR_GID>` below `clusterVarsStart`, `<id>_on` from there. */
  lemma GraphNames(p: Problem, c: Candidates, x: seq<real>, k: int)
    requires NonSmallCount(Flatten(c.prims)) <= |x|
    ensures k in GraphOf(p, c, x).names <==> 0 <= k < |x| && Chosen(x[k])
    ensures k in GraphOf(p, c, x).names && k >= NonSmallCount(Flatten(c.prims))
        ==> GraphOf(p, c, x).names[k] == OnName(k)
    ensures k in GraphOf(p, c, x).names && k < NonSmallCount(Flatten(c.prims))
        ==> k in ChosenNames(Flatten(c.prims), x) && GraphOf(p, c, x).names[k] == ChosenNames(Flatten(c.prims), x)[k]
  {
    var flat := Flatten(c.prims);
    var start := NonSmallCount(flat);
    var chosen, cluster := ChosenNames(flat, x), ClusterNames(x, start, |x|);
    assert GraphOf(p, c, x).names == chosen + cluster;
    ChosenNamesDomain(flat, x, k);
    ClusterNamesMembers(x, start, |x|, k);
    if k < start {
      assert k !in cluster;
    } else {
      assert k !in chosen;
    }
  }

  /** The graph's edges are exactly the nonzero entries of the constraint
      matrices. */
  lemma GraphEdges(p: Problem, c: Candidates, x: seq<real>, e: Edge)
    requires NonSmallCount(Flatten(c.prims)) <= |x|
    ensures e in GraphOf(p, c, x).edges
        <==> exists j, k :: 0 <= j < |p.constraints| && 0 <= k < |p.constraints[j]|
                            && p.constraints[j][k].value != 0.0
                            && e == Edge(p.constraints[j][k].row, p.constraints[j][k].col)
  {
    ConstraintEdgesMembers(p.constraints, e);
  }
}
