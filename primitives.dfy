/** Candidate primitives and the selection rule that maps a decision vector
    back onto them. The candidates come as a two-level container (patch,
    then primitives of the patch); the rule is stated on its flattening,
    which is the order the solver walks it in. */
module Primitives {
  import opened Wrappers
  import opened Sequences
  import opened Numeric
  import opened Text

  /** The values of the STATUS tag. */
  datatype Status = Unset | Small | Active | Inactive

  datatype Point = Point(x: real, y: real, z: real)

  /** A candidate: its GID and DIR_GID tags, its STATUS tag, the anchor
      position `pos()` and the shape's remaining parameters, which the solver
      copies without looking at. */
  datatype Primitive = Primitive(gid: int, dirGid: int, status: Status, anchor: Point, shape: seq<real>)

  /** A primitive takes a decision variable unless it is tagged SMALL. */
  predicate Decided(p: Primitive) {
    p.status != Small
  }

  /** The two-level container in iteration order. */
  function Flatten(prims: seq<seq<Primitive>>): seq<Primitive>
    decreases |prims|
  {
    if prims == [] then [] else Flatten(prims[..|prims| - 1]) + prims[|prims| - 1]
  }

  /** Number of primitives that take a decision variable. */
  function NonSmallCount(ps: seq<Primitive>): nat
    decreases |ps|
  {
    if ps == [] then 0
    else NonSmallCount(ps[..|ps| - 1]) + (if Decided(ps[|ps| - 1]) then 1 else 0)
  }

  /** The node name `p<GID>,<DIR_GID>` of a chosen primitive. */
  function PrimName(p: Primitive): string {
    "p" + IntToString(p.gid) + "," + IntToString(p.dirGid)
  }

  /** A chosen primitive, re-tagged ACTIVE. */
  function Activated(p: Primitive): Primitive {
    p.(status := Active)
  }

  /** What the selection produces from the candidates `ps`: the output list
      and the names and positions given to the graph. */
  datatype Selection = Selection(selected: seq<Primitive>, names: map<int, string>, positions: map<int, Point>)

  /** The walk over `ps`: SMALL primitives are output unconditionally; the
      others are output re-tagged ACTIVE, named and positioned at their
      decision index when their decision value rounds to a positive number. */
  function Select(ps: seq<Primitive>, x: seq<real>): Selection
    requires NonSmallCount(ps) <= |x|
    decreases |ps|
  {
    if ps == [] then Selection([], map[], map[])
    else
      var init, p := ps[..|ps| - 1], ps[|ps| - 1];
      var s := Select(init, x);
      var k := NonSmallCount(init);
      if !Decided(p) then Selection(s.selected + [p], s.names, s.positions)
      else if Chosen(x[k]) then
        Selection(s.selected + [Activated(p)], s.names[k := PrimName(p)], s.positions[k := p.anchor])
      else s
  }

  function Selected(ps: seq<Primitive>, x: seq<real>): seq<Primitive>
    requires NonSmallCount(ps) <= |x|
  {
    Select(ps, x).selected
  }

  /** The candidates after the selection has set the tags in place. */
  function Retagged(ps: seq<Primitive>, x: seq<real>): seq<Primitive>
    requires NonSmallCount(ps) <= |x|
    decreases |ps|
  {
    if ps == [] then []
    else
      var init, p := ps[..|ps| - 1], ps[|ps| - 1];
      Retagged(init, x)
        + [if Decided(p) && Chosen(x[NonSmallCount(init)]) then Activated(p) else p]
  }

  /** Node names the selection gives, keyed by decision index. */
  function ChosenNames(ps: seq<Primitive>, x: seq<real>): map<int, string>
    requires NonSmallCount(ps) <= |x|
  {
    Select(ps, x).names
  }

  /** Node positions the selection gives, keyed by decision index. */
  function ChosenPositions(ps: seq<Primitive>, x: seq<real>): map<int, Point>
    requires NonSmallCount(ps) <= |x|
  {
    Select(ps, x).positions
  }

  // ---------------------------------------------------------------------
  // Counting and flattening

  lemma {:induction false} FlattenConcat(a: seq<seq<Primitive>>, b: seq<seq<Primitive>>)
    ensures Flatten(a + b) == Flatten(a) + Flatten(b)
    decreases |b|
  {
    if b == [] {
      assert a + b == a;
    } else {
      var b' := b[..|b| - 1];
      ConcatInit(a, b);
      FlattenConcat(a, b');
    }
  }

  lemma {:induction false} NonSmallCountConcat(a: seq<Primitive>, b: seq<Primitive>)
    ensures NonSmallCount(a + b) == NonSmallCount(a) + NonSmallCount(b)
    decreases |b|
  {
    if b == [] {
      assert a + b == a;
    } else {
      var b' := b[..|b| - 1];
      ConcatInit(a, b);
      NonSmallCountConcat(a, b');
    }
  }

  /** The candidates of the first `l` patches need no more decision values
      than all candidates. */
  lemma FlattenPrefixCount(prims: seq<seq<Primitive>>, l: nat)
    requires l <= |prims|
    ensures NonSmallCount(Flatten(prims[..l])) <= NonSmallCount(Flatten(prims))
  {
    assert prims == prims[..l] + prims[l..];
    FlattenConcat(prims[..l], prims[l..]);
    NonSmallCountConcat(Flatten(prims[..l]), Flatten(prims[l..]));
  }

  lemma {:induction false} NonSmallCountPrefix(ps: seq<Primitive>, i: nat)
    requires i < |ps|
    ensures NonSmallCount(ps[..i]) + (if Decided(ps[i]) then 1 else 0) <= NonSmallCount(ps)
  {
    assert ps == ps[..i] + [ps[i]] + ps[i + 1..];
    NonSmallCountConcat(ps[..i] + [ps[i]], ps[i + 1..]);
    NonSmallCountConcat(ps[..i], [ps[i]]);
    assert [ps[i]][..0] == [];
  }

  lemma FlattenStep(prims: seq<seq<Primitive>>, l: nat)
    requires l < |prims|
    ensures Flatten(prims[..l + 1]) == Flatten(prims[..l]) + prims[l]
  {
    assert prims[..l + 1][..l] == prims[..l];
  }

  /** Replacing patch `l` by `row` and flattening the patches up to it. */
  lemma FlattenUpdate(prims: seq<seq<Primitive>>, l: nat, row: seq<Primitive>)
    requires l < |prims|
    ensures Flatten(prims[l := row][..l + 1]) == Flatten(prims[..l]) + row
  {
    assert prims[l := row][..l + 1][..l] == prims[..l];
  }

  /** The selection rule applied to one more primitive `p`. */
  lemma SelectionStep(done: seq<Primitive>, p: Primitive, x: seq<real>)
    requires NonSmallCount(done + [p]) <= |x|
    ensures NonSmallCount(done + [p]) == NonSmallCount(done) + (if Decided(p) then 1 else 0)
    ensures !Decided(p) ==>
      && Selected(done + [p], x) == Selected(done, x) + [p]
      && Retagged(done + [p], x) == Retagged(done, x) + [p]
      && ChosenNames(done + [p], x) == ChosenNames(done, x)
      && ChosenPositions(done + [p], x) == ChosenPositions(done, x)
    ensures Decided(p) && Chosen(x[NonSmallCount(done)]) ==>
      && Selected(done + [p], x) == Selected(done, x) + [Activated(p)]
      && Retagged(done + [p], x) == Retagged(done, x) + [Activated(p)]
      && ChosenNames(done + [p], x) == ChosenNames(done, x)[NonSmallCount(done) := PrimName(p)]
      && ChosenPositions(done + [p], x) == ChosenPositions(done, x)[NonSmallCount(done) := p.anchor]
    ensures Decided(p) && !Chosen(x[NonSmallCount(done)]) ==>
      && Selected(done + [p], x) == Selected(done, x)
      && Retagged(done + [p], x) == Retagged(done, x) + [p]
      && ChosenNames(done + [p], x) == ChosenNames(done, x)
      && ChosenPositions(done + [p], x) == ChosenPositions(done, x)
  {
    assert (done + [p])[..|done|] == done;
  }

  // ---------------------------------------------------------------------
  // The selection, position by position

  /** What the selection makes of the primitive at flat position `i`: SMALL
      is copied as is, a chosen one is copied re-tagged, an unchosen one is
      dropped. Its decision index is the number of non-SMALL primitives
      before it, so SMALL primitives consume no index. */
  function KeptImage(ps: seq<Primitive>, x: seq<real>, i: nat): Option<Primitive>
    requires i < |ps| && NonSmallCount(ps) <= |x|
  {
    NonSmallCountPrefix(ps, i);
    if !Decided(ps[i]) then Some(ps[i])
    else if Chosen(x[NonSmallCount(ps[..i])]) then Some(Activated(ps[i]))
    else None
  }

  /** The present values of a sequence of options, in order. */
  function Somes<T>(s: seq<Option<T>>): seq<T>
    decreases |s|
  {
    if s == [] then []
    else Somes(s[..|s| - 1]) + (if s[|s| - 1].Some? then [s[|s| - 1].value] else [])
  }

  function Images(ps: seq<Primitive>, x: seq<real>): (r: seq<Option<Primitive>>)
    requires NonSmallCount(ps) <= |x|
    ensures |r| == |ps|
  {
    seq(|ps|, i requires 0 <= i < |ps| => KeptImage(ps, x, i))
  }

  /** The output of the selection is, in iteration order, exactly the kept
      images of the candidates. */
  lemma {:induction false} SelectedIsKeptImages(ps: seq<Primitive>, x: seq<real>)
    requires NonSmallCount(ps) <= |x|
    ensures Selected(ps, x) == Somes(Images(ps, x))
    decreases |ps|
  {
    if ps != [] {
      var init := ps[..|ps| - 1];
      NonSmallCountPrefix(ps, |ps| - 1);
      SelectedIsKeptImages(init, x);
      assert Images(ps, x)[..|ps| - 1] == Images(init, x) by {
        forall i | 0 <= i < |init|
          ensures Images(ps, x)[i] == Images(init, x)[i]
        {
          assert init[..i] == ps[..i];
        }
      }
    }
  }

  /** Counting form: the output holds every SMALL primitive and one primitive
      per chosen decision variable. */
  lemma {:induction false} SelectedLength(ps: seq<Primitive>, x: seq<real>)
    requires NonSmallCount(ps) <= |x|
    ensures |Selected(ps, x)| == |ps| - NonSmallCount(ps) + ChosenCount(ps, x)
    decreases |ps|
  {
    if ps != [] {
      NonSmallCountPrefix(ps, |ps| - 1);
      SelectedLength(ps[..|ps| - 1], x);
    }
  }

  /** Number of non-SMALL primitives whose decision value is on. */
  function ChosenCount(ps: seq<Primitive>, x: seq<real>): nat
    requires NonSmallCount(ps) <= |x|
    decreases |ps|
  {
    if ps == [] then 0
    else
      var init, p := ps[..|ps| - 1], ps[|ps| - 1];
      ChosenCount(init, x) + (if Decided(p) && Chosen(x[NonSmallCount(init)]) then 1 else 0)
  }

  /** After the selection, a primitive is ACTIVE-tagged if it was chosen and
      keeps its old tag otherwise; SMALL primitives keep theirs too. */
  lemma {:induction false} RetaggedAt(ps: seq<Primitive>, x: seq<real>, i: nat)
    requires NonSmallCount(ps) <= |x| && i < |ps|
    ensures |Retagged(ps, x)| == |ps|
    ensures NonSmallCount(ps[..i]) < |x| || !Decided(ps[i])
    ensures Retagged(ps, x)[i]
         == if Decided(ps[i]) && Chosen(x[NonSmallCount(ps[..i])]) then Activated(ps[i]) else ps[i]
    decreases |ps|
  {
    NonSmallCountPrefix(ps, i);
    RetaggedLength(ps, x);
    var init := ps[..|ps| - 1];
    NonSmallCountPrefix(ps, |ps| - 1);
    if i < |ps| - 1 {
      assert init[..i] == ps[..i];
      RetaggedLength(init, x);
      RetaggedAt(init, x, i);
    }
  }

  lemma {:induction false} RetaggedLength(ps: seq<Primitive>, x: seq<real>)
    requires NonSmallCount(ps) <= |x|
    ensures |Retagged(ps, x)| == |ps|
    decreases |ps|
  {
    if ps != [] {
      NonSmallCountPrefix(ps, |ps| - 1);
      RetaggedLength(ps[..|ps| - 1], x);
    }
  }

  /** Every name the selection sets is at the index of a chosen variable that
      belongs to a primitive (below the first cluster variable). */
  lemma {:induction false} ChosenNamesKeys(ps: seq<Primitive>, x: seq<real>)
    requires NonSmallCount(ps) <= |x|
    ensures forall k :: k in ChosenNames(ps, x) ==> 0 <= k < NonSmallCount(ps) && Chosen(x[k])
    ensures ChosenPositions(ps, x).Keys == ChosenNames(ps, x).Keys
    decreases |ps|
  {
    if ps != [] {
      NonSmallCountPrefix(ps, |ps| - 1);
      ChosenNamesKeys(ps[..|ps| - 1], x);
    }
  }

  /** Every decision index below the first cluster variable whose value is
      on carries a name, and no other index does. */
  lemma {:induction false} ChosenNamesDomain(ps: seq<Primitive>, x: seq<real>, k: int)
    requires NonSmallCount(ps) <= |x|
    ensures k in ChosenNames(ps, x) <==> 0 <= k < NonSmallCount(ps) && Chosen(x[k])
    decreases |ps|
  {
    if ps != [] {
      NonSmallCountPrefix(ps, |ps| - 1);
      ChosenNamesDomain(ps[..|ps| - 1], x, k);
    }
  }

  /** A non-SMALL primitive at flat position `i` gets its name `p<GID>,<DIR_GID>`
      and its anchor at its decision index iff its decision value is on. */
  lemma {:induction false} ChosenNamesAt(ps: seq<Primitive>, x: seq<real>, i: nat)
    requires NonSmallCount(ps) <= |x| && i < |ps| && Decided(ps[i])
    ensures NonSmallCount(ps[..i]) < |x|
    ensures var k := NonSmallCount(ps[..i]);
      && (k in ChosenNames(ps, x) <==> Chosen(x[k]))
      && (k in ChosenNames(ps, x) ==> ChosenNames(ps, x)[k] == PrimName(ps[i]))
      && (k in ChosenPositions(ps, x) <==> Chosen(x[k]))
      && (k in ChosenPositions(ps, x) ==> ChosenPositions(ps, x)[k] == ps[i].anchor)
    decreases |ps|
  {
    NonSmallCountPrefix(ps, i);
    var init := ps[..|ps| - 1];
    NonSmallCountPrefix(ps, |ps| - 1);
    if i < |ps| - 1 {
      assert init[..i] == ps[..i];
      NonSmallCountPrefix(init, i);
      ChosenNamesAt(init, x, i);
    } else {
      ChosenNamesKeys(init, x);
    }
  }

  /** Two SMALL and three non-SMALL candidates with decisions `[0, 1, 1]`:
      the SMALL ones are kept, the first non-SMALL one is dropped, the other
      two are kept as ACTIVE. */
  lemma SelectionExample(s1: Primitive, n1: Primitive, s2: Primitive, n2: Primitive, n3: Primitive)
    requires s1.status == Small && s2.status == Small
    requires Decided(n1) && Decided(n2) && Decided(n3)
    ensures NonSmallCount([s1, n1, s2, n2, n3]) == 3
    ensures Selected([s1, n1, s2, n2, n3], [0.0, 1.0, 1.0]) == [s1, s2, Activated(n2), Activated(n3)]
  {
    var x := [0.0, 1.0, 1.0];
    var a1, a2, a3, a4, a5 := [s1], [s1, n1], [s1, n1, s2], [s1, n1, s2, n2], [s1, n1, s2, n2, n3];
    assert a1[..0] == [] && a2[..1] == a1 && a3[..2] == a2 && a4[..3] == a3 && a5[..4] == a4;
    assert NonSmallCount(a1) == 0 && Select(a1, x).selected == [s1];
    assert NonSmallCount(a2) == 1 && Select(a2, x).selected == [s1];
    assert NonSmallCount(a3) == 1 && Select(a3, x).selected == [s1, s2];
    assert NonSmallCount(a4) == 2 && Select(a4, x).selected == [s1, s2, Activated(n2)];
  }
}
