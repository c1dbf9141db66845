/** The interaction graph the solver records for a solution: one node per
    decision variable, optionally named and positioned, and one edge per
    nonzero entry of a quadratic constraint matrix. */
module Diagnostics {
  import opened Numeric
  import opened Text
  import opened Sparse
  import opened Primitives

  datatype Edge = Edge(row: nat, col: nat)

  /** What `Diagnostic::draw` is given: names, positions and edges. */
  datatype Graph = Graph(names: map<int, string>, positions: map<int, Point>, edges: seq<Edge>)

  /** The graph under construction, updated in place by the solver. */
  class Diagnostic {
    const linObj: seq<Triplet>
    const quadObj: seq<Triplet>
    var names: map<int, string>
    var positions: map<int, Point>
    var edges: seq<Edge>

    constructor (lin: seq<Triplet>, quad: seq<Triplet>)
      ensures linObj == lin && quadObj == quad
      ensures names == map[] && positions == map[] && edges == []
    {
      linObj, quadObj := lin, quad;
      names, positions, edges := map[], map[], [];
    }

    method SetNodeName(id: int, name: string)
      modifies this
      ensures names == old(names)[id := name]
      ensures positions == old(positions) && edges == old(edges)
    {
      names := names[id := name];
    }

    method SetNodePos(id: int, pos: Point)
      modifies this
      ensures positions == old(positions)[id := pos]
      ensures names == old(names) && edges == old(edges)
    {
      positions := positions[id := pos];
    }

    method AddEdge(row: nat, col: nat)
      modifies this
      ensures edges == old(edges) + [Edge(row, col)]
      ensures names == old(names) && positions == old(positions)
    {
      edges := edges + [Edge(row, col)];
    }

    function Snapshot(): (g: Graph)
      reads this
      ensures g.names == names && g.positions == positions && g.edges == edges
    {
      Graph(names, positions, edges)
    }
  }

  /** The name `<id>_on` of a cluster variable that is on. */
  function OnName(id: int): string {
    IntToString(id) + "_on"
  }

  /** Distinct cluster variables get distinct node names. */
  lemma OnNameInjective(a: int, b: int)
    requires OnName(a) == OnName(b)
    ensures a == b
  {
    assert IntToString(a) == OnName(a)[..|OnName(a)| - 3];
    assert IntToString(b) == OnName(b)[..|OnName(b)| - 3];
    IntToStringInjective(a, b);
  }

  /** Names of the cluster variables: those at indices from `start` up to
      `upTo` whose decision value is on, added in index order. */
  function ClusterNames(x: seq<real>, start: nat, upTo: nat): map<int, string>
    requires upTo <= |x|
    decreases upTo
  {
    if upTo <= start then map[]
    else
      var names := ClusterNames(x, start, upTo - 1);
      if Chosen(x[upTo - 1]) then names[upTo - 1 := OnName(upTo - 1)] else names
  }

  /** A cluster variable is named, `<id>_on`, exactly when it lies in the
      range and its value is on. */
  lemma {:induction false} ClusterNamesMembers(x: seq<real>, start: nat, upTo: nat, k: int)
    requires upTo <= |x|
    ensures k in ClusterNames(x, start, upTo) <==> start <= k < upTo && Chosen(x[k])
    ensures k in ClusterNames(x, start, upTo) ==> ClusterNames(x, start, upTo)[k] == OnName(k)
    decreases upTo
  {
    if upTo > start {
      ClusterNamesMembers(x, start, upTo - 1, k);
    }
  }

  lemma UnionUpdate<K, V>(m1: map<K, V>, m2: map<K, V>, k: K, v: V)
    ensures (m1 + m2)[k := v] == m1 + m2[k := v]
  {
  }

  /** Edges of one constraint matrix: each stored nonzero entry, in storage order. */
  function MatrixEdges(m: seq<Triplet>): seq<Edge>
    decreases |m|
  {
    if m == [] then []
    else
      var t := m[|m| - 1];
      MatrixEdges(m[..|m| - 1]) + (if t.value != 0.0 then [Edge(t.row, t.col)] else [])
  }

  /** Edges of all constraint matrices, by constraint index. */
  function ConstraintEdges(cs: seq<seq<Triplet>>): seq<Edge>
    decreases |cs|
  {
    if cs == [] then [] else ConstraintEdges(cs[..|cs| - 1]) + MatrixEdges(cs[|cs| - 1])
  }

  lemma MatrixEdgesStep(m: seq<Triplet>, e: nat)
    requires e < |m|
    ensures MatrixEdges(m[..e + 1])
         == MatrixEdges(m[..e]) + (if m[e].value != 0.0 then [Edge(m[e].row, m[e].col)] else [])
  {
    assert m[..e + 1][..e] == m[..e];
  }

  lemma ConstraintEdgesStep(cs: seq<seq<Triplet>>, j: nat)
    requires j < |cs|
    ensures ConstraintEdges(cs[..j + 1]) == ConstraintEdges(cs[..j]) + MatrixEdges(cs[j])
  {
    assert cs[..j + 1][..j] == cs[..j];
  }

  function NonzeroCount(m: seq<Triplet>): nat
    decreases |m|
  {
    if m == [] then 0 else NonzeroCount(m[..|m| - 1]) + (if m[|m| - 1].value != 0.0 then 1 else 0)
  }

  /** An edge of a matrix is exactly the position of one of its nonzero entries. */
  lemma {:induction false} MatrixEdgesMembers(m: seq<Triplet>, e: Edge)
    ensures e in MatrixEdges(m)
        <==> exists k :: 0 <= k < |m| && m[k].value != 0.0 && e == Edge(m[k].row, m[k].col)
    decreases |m|
  {
    if m != [] {
      var init := m[..|m| - 1];
      MatrixEdgesMembers(init, e);
      if e in MatrixEdges(init) {
        var k :| 0 <= k < |init| && init[k].value != 0.0 && e == Edge(init[k].row, init[k].col);
        assert m[k] == init[k];
      }
      if exists k :: 0 <= k < |m| && m[k].value != 0.0 && e == Edge(m[k].row, m[k].col) {
        var k :| 0 <= k < |m| && m[k].value != 0.0 && e == Edge(m[k].row, m[k].col);
        if k < |init| {
          assert init[k] == m[k];
        }
      }
    }
  }

  /** Duplicates are kept: one edge per nonzero entry. */
  lemma {:induction false} MatrixEdgesCount(m: seq<Triplet>)
    ensures |MatrixEdges(m)| == NonzeroCount(m)
    decreases |m|
  {
    if m != [] {
      MatrixEdgesCount(m[..|m| - 1]);
    }
  }

  /** An edge of the graph comes from a nonzero entry of some constraint
      matrix, and every such entry gives one. */
  lemma {:induction false} ConstraintEdgesMembers(cs: seq<seq<Triplet>>, e: Edge)
    ensures e in ConstraintEdges(cs)
        <==> exists j, k :: 0 <= j < |cs| && 0 <= k < |cs[j]| && cs[j][k].value != 0.0
                            && e == Edge(cs[j][k].row, cs[j][k].col)
    decreases |cs|
  {
    if cs != [] {
      var init := cs[..|cs| - 1];
      var last := cs[|cs| - 1];
      ConstraintEdgesMembers(init, e);
      MatrixEdgesMembers(last, e);
      if e in ConstraintEdges(init) {
        var j, k :| 0 <= j < |init| && 0 <= k < |init[j]| && init[j][k].value != 0.0
                    && e == Edge(init[j][k].row, init[j][k].col);
        assert cs[j] == init[j];
      }
      if e in MatrixEdges(last) {
        var k :| 0 <= k < |last| && last[k].value != 0.0 && e == Edge(last[k].row, last[k].col);
        assert cs[|cs| - 1][k] == last[k];
      }
      if exists j, k :: 0 <= j < |cs| && 0 <= k < |cs[j]| && cs[j][k].value != 0.0
                        && e == Edge(cs[j][k].row, cs[j][k].col) {
        var j, k :| 0 <= j < |cs| && 0 <= k < |cs[j]| && cs[j][k].value != 0.0
                    && e == Edge(cs[j][k].row, cs[j][k].col);
        if j < |init| {
          assert init[j] == cs[j];
        } else {
          assert last[k] == cs[j][k];
        }
      }
    }
  }

  /** A constraint with entries at (0,2) and (1,3) yields exactly the edges
      {0,2} and {1,3}. */
  lemma EdgesExample(a: real, b: real)
    requires a != 0.0 && b != 0.0
    ensures ConstraintEdges([[Triplet(0, 2, a), Triplet(1, 3, b)]]) == [Edge(0, 2), Edge(1, 3)]
  {
    var m := [Triplet(0, 2, a), Triplet(1, 3, b)];
    assert m[..1] == [Triplet(0, 2, a)] && m[..1][..0] == [];
    assert MatrixEdges(m[..1]) == [Edge(0, 2)];
    assert MatrixEdges(m) == [Edge(0, 2), Edge(1, 3)];
    var cs: seq<seq<Triplet>> := [m];
    assert cs[..0] == [];
    assert ConstraintEdges(cs) == ConstraintEdges([]) + MatrixEdges(m);
  }
}
