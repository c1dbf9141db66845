/** File names of the solver's output artifacts. The parent directory of the
    candidates file and the iteration number parsed out of its name are
    computed by library code outside this model and come in as values. */
module OutputPaths {
  import opened Text

  /** The directory the relative output directory is resolved against:
      `./` when the candidates file has no parent, else the parent and a `/`. */
  function OutputDir(parent: string): (d: string)
    ensures |d| >= 1 && d[|d| - 1] == '/'
    ensures parent == [] ==> d == "./"
    ensures parent != [] ==> |d| == |parent| + 1 && d[..|parent|] == parent
  {
    if parent == "" then "./" else parent + "/"
  }

  /** `std::max(0, parsed)`. */
  function Iteration(parsed: int): (it: nat)
    ensures parsed >= 0 ==> it == parsed
    ensures parsed < 0 ==> it == 0
  {
    if parsed > 0 then parsed else 0
  }

  /** `<dir><rod>/primitives_it<iteration>.<solver>.csv` */
  function PrimitivesPath(dir: string, rod: string, iteration: nat, solverName: string): string {
    dir + rod + "/primitives_it" + NatToString(iteration) + "." + solverName + ".csv"
  }

  /** `<dir><rod>/diag_it<iteration>.gv` */
  function DiagPath(dir: string, rod: string, iteration: nat): string {
    dir + rod + "/diag_it" + NatToString(iteration) + ".gv"
  }

  /** `<project>/x.csv` */
  function SolutionPath(projectPath: string): string {
    projectPath + "/x.csv"
  }

  /** `<parent of project>/<energy file>`; no `./` fallback here. */
  function LedgerPath(projectParent: string, energyPath: string): string {
    projectParent + "/" + energyPath
  }

  /** A digit string followed by a suffix starting with `.` is recovered
      from the concatenation. */
  lemma DigitsBeforeDot(u: string, b: string, v: string, c: string)
    requires forall i :: 0 <= i < |u| ==> IsDigit(u[i])
    requires forall i :: 0 <= i < |v| ==> IsDigit(v[i])
    requires |b| >= 1 && b[0] == '.' && |c| >= 1 && c[0] == '.'
    requires u + b == v + c
    ensures u == v
  {
    assert u == (u + b)[..|u|];
    assert v == (v + c)[..|v|];
  }

  /** Different iterations never share a primitives file. */
  lemma PrimitivesPathInjective(dir: string, rod: string, i: nat, j: nat, solverName: string)
    requires PrimitivesPath(dir, rod, i, solverName) == PrimitivesPath(dir, rod, j, solverName)
    ensures i == j
  {
    var pre := dir + rod + "/primitives_it";
    var bi := "." + solverName + ".csv";
    assert PrimitivesPath(dir, rod, i, solverName) == pre + (NatToString(i) + bi);
    assert PrimitivesPath(dir, rod, j, solverName) == pre + (NatToString(j) + bi);
    assert NatToString(i) + bi == (pre + (NatToString(i) + bi))[|pre|..];
    assert NatToString(j) + bi == (pre + (NatToString(j) + bi))[|pre|..];
    DigitsBeforeDot(NatToString(i), bi, NatToString(j), bi);
    NatToStringInjective(i, j);
  }

  /** Different iterations never share a diagnostics file. */
  lemma DiagPathInjective(dir: string, rod: string, i: nat, j: nat)
    requires DiagPath(dir, rod, i) == DiagPath(dir, rod, j)
    ensures i == j
  {
    var pre := dir + rod + "/diag_it";
    var b := ".gv";
    assert DiagPath(dir, rod, i) == pre + (NatToString(i) + b);
    assert DiagPath(dir, rod, j) == pre + (NatToString(j) + b);
    assert NatToString(i) + b == (pre + (NatToString(i) + b))[|pre|..];
    assert NatToString(j) + b == (pre + (NatToString(j) + b))[|pre|..];
    DigitsBeforeDot(NatToString(i), b, NatToString(j), b);
    NatToStringInjective(i, j);
  }

  /** The diagnostics file never overwrites a primitives file. */
  lemma DiagPathIsNotPrimitivesPath(dir: string, rod: string, i: nat, j: nat, solverName: string)
    ensures DiagPath(dir, rod, i) != PrimitivesPath(dir, rod, j, solverName)
  {
    var n := |dir + rod|;
    assert DiagPath(dir, rod, i)[n + 1] == 'd';
    assert PrimitivesPath(dir, rod, j, solverName)[n + 1] == 'p';
  }

  /** A project path without a directory part puts the ledger in the root. */
  lemma LedgerOfBareProject()
    ensures LedgerPath("", "energy.csv") == "/energy.csv"
  {
  }
}
