/**
 * connected_subpartition_polytope.py: the small example graphs and
 * get_ilp_formulation, the copy whose separator labels count from 1, whose
 * objective ends with a newline and whose output keeps the Binaries section.
 */
module ConnectedSubpartitionPolytope {
  import opened Wrappers
  import opened Decimal
  import opened LpModel
  import opened LpText
  import opened LpBuilder

  // ------------------------------------------------------------ example graphs

  function GraphP5(): Graph {
    Graph(5, {(1, 2), (2, 3), (3, 4), (4, 5)})
  }

  function GraphC4(): Graph {
    Graph(4, {(1, 2), (2, 3), (3, 4), (4, 1)})
  }

  function GraphClaw(): Graph {
    Graph(4, {(1, 3), (2, 3), (3, 4)})
  }

  function GraphPaw(): Graph {
    Graph(4, {(1, 2), (1, 3), (2, 3), (3, 4)})
  }

  function GraphDiamond(): Graph {
    Graph(4, {(1, 2), (1, 3), (1, 4), (2, 3), (3, 4)})
  }

  function GraphK14(): Graph {
    Graph(5, {(1, 2), (1, 3), (1, 4), (1, 5)})
  }

  function GraphK15(): Graph {
    Graph(6, {(1, 2), (1, 3), (1, 4), (1, 5), (1, 6)})
  }

  // ------------------------------------------------------------------- builder

  /** Separator numbers are printed from 1 in this copy. */
  const LabelOffset: nat := 1

  /** The sections of the LP text for a model. */
  function Sections(m: Model): seq<string> {
    [RenderObjective(m.objective, true), RenderConstraints(m.constraints), "Bounds\n", RenderBinaries(m.binaries), "End\n"]
  }

  /**
   * What get_ilp_formulation(G, k) returns or raises: for n >= 1 the objective
   * loop raises ZeroDivisionError when k == 0 and KeyError when k < 0;
   * otherwise the five sections of the model joined with "\n".
   */
  function Formulation(g: Graph, seps: SeparatorOracle, k: int): Result<string, PyError> {
    if g.n >= 1 && k < 1 then Failure(if k == 0 then ZeroDivisionError else KeyError)
    else Success(Join("\n", Sections(Build(g, seps, k, LabelOffset))))
  }

  /** get_ilp_formulation, loop for loop. */
  method GetIlpFormulation(g: Graph, seps: SeparatorOracle, k: int) returns (r: Result<string, PyError>)
    requires SeparatorsInRange(g, seps)
    ensures r.Failure? <==> g.n >= 1 && k < 1
    ensures r.Failure? ==> r.error == if k == 0 then ZeroDivisionError else KeyError
    ensures r == Formulation(g, seps, k)
  {
    var n := g.n;
    var vars := VariableTable(n, k);
    var objective :- ObjectiveSection(n, k, vars, true);
    var constraints := ConstraintsSection(g, k, vars, seps, LabelOffset);
    var bounds := "Bounds\n";
    var domain := BinariesSection(n, k, vars);
    var sections := [objective, constraints, bounds, domain, "End\n"];
    r := Success(Join("\n", sections));
  }

  /**
   * The output, written out: the objective (ending in "\n"), a blank line, the
   * constraints, a blank line, "Bounds", a blank line, the Binaries list, a
   * blank line and "End".
   */
  lemma FormulationText(g: Graph, seps: SeparatorOracle, k: int)
    requires g.n == 0 || k >= 1
    ensures Formulation(g, seps, k) == Success(
      RenderObjective(ObjectiveTerms(g.n, k), true) + "\n" +
      RenderConstraints(GubConstraints(g.n, k) + SepConstraintsOf(SepKeys(g, seps, k), seps, LabelOffset)) + "\n" +
      "Bounds\n" + "\n" +
      RenderBinaries(BinaryVars(g.n, k)) + "\n" +
      "End\n")
  {
    var m := Build(g, seps, k, LabelOffset);
    JoinFive("\n", RenderObjective(m.objective, true), RenderConstraints(m.constraints), "Bounds\n",
             RenderBinaries(m.binaries), "End\n");
  }

  // ------------------------------------------------------ the example graphs

  /** In the claw (centre 3) the non-adjacent pairs are (1,2), (1,4) and (2,4). */
  lemma ClawSeparatorTotal(seps: SeparatorOracle)
    ensures SepTotal(GraphClaw(), seps) == |seps(1, 2)| + |seps(1, 4)| + |seps(2, 4)|
  {
    var g := GraphClaw();
    assert HasEdge(g, 1, 3) && HasEdge(g, 2, 3) && HasEdge(g, 3, 4);
    assert !HasEdge(g, 1, 2) && !HasEdge(g, 1, 4) && !HasEdge(g, 2, 4);
  }

  /**
   * With k = 3 colours, as in main(), and {3} the one separator of every
   * non-adjacent pair of the claw, the output has 4 GUB and 9 separator constraints.
   */
  lemma ClawConstraintCount(seps: SeparatorOracle)
    requires seps(1, 2) == [[3]] && seps(1, 4) == [[3]] && seps(2, 4) == [[3]]
    ensures |Build(GraphClaw(), seps, 3, LabelOffset).constraints| == 13
    ensures |SepKeys(GraphClaw(), seps, 3)| == 9
  {
    ClawSeparatorTotal(seps);
    SepKeysCount(GraphClaw(), seps, 3);
  }

  /** In the 4-cycle 1-2-3-4 the non-adjacent pairs are the diagonals (1,3) and (2,4). */
  lemma C4SeparatorTotal(seps: SeparatorOracle)
    ensures SepTotal(GraphC4(), seps) == |seps(1, 3)| + |seps(2, 4)|
  {
    var g := GraphC4();
    assert HasEdge(g, 1, 2) && HasEdge(g, 2, 3) && HasEdge(g, 3, 4) && HasEdge(g, 1, 4);
    assert !HasEdge(g, 1, 3) && !HasEdge(g, 2, 4);
  }

  /**
   * With the two separators of each diagonal of the 4-cycle, {2} and {4} for
   * (1,3) and {1} and {3} for (2,4), there are 4 separator constraints per colour.
   */
  lemma C4ConstraintCount(seps: SeparatorOracle, k: int)
    requires seps(1, 3) == [[2], [4]] && seps(2, 4) == [[1], [3]]
    ensures |SepKeys(GraphC4(), seps, k)| == 4 * Colours(k)
  {
    C4SeparatorTotal(seps);
    SepKeysCount(GraphC4(), seps, k);
  }

  /** In the paw (triangle 1-2-3 with pendant 4 at 3) the non-adjacent pairs are (1,4) and (2,4). */
  lemma PawSeparatorTotal(seps: SeparatorOracle)
    ensures SepTotal(GraphPaw(), seps) == |seps(1, 4)| + |seps(2, 4)|
  {
    var g := GraphPaw();
    assert HasEdge(g, 1, 2) && HasEdge(g, 1, 3) && HasEdge(g, 2, 3) && HasEdge(g, 3, 4);
    assert !HasEdge(g, 1, 4) && !HasEdge(g, 2, 4);
  }

  /** In the diamond (every pair but 2, 4 adjacent) the only non-adjacent pair is (2,4). */
  lemma DiamondSeparatorTotal(seps: SeparatorOracle)
    ensures SepTotal(GraphDiamond(), seps) == |seps(2, 4)|
  {
    var g := GraphDiamond();
    assert HasEdge(g, 1, 2) && HasEdge(g, 1, 3) && HasEdge(g, 1, 4) && HasEdge(g, 2, 3) && HasEdge(g, 3, 4);
    assert !HasEdge(g, 2, 4);
  }

  /** In the star K1,4 (centre 1) the non-adjacent pairs are the six pairs of leaves. */
  lemma K14SeparatorTotal(seps: SeparatorOracle)
    ensures SepTotal(GraphK14(), seps)
         == |seps(2, 3)| + |seps(2, 4)| + |seps(2, 5)| + |seps(3, 4)| + |seps(3, 5)| + |seps(4, 5)|
  {
    var g := GraphK14();
    assert HasEdge(g, 1, 2) && HasEdge(g, 1, 3) && HasEdge(g, 1, 4) && HasEdge(g, 1, 5);
    assert !HasEdge(g, 2, 3) && !HasEdge(g, 2, 4) && !HasEdge(g, 2, 5);
    assert !HasEdge(g, 3, 4) && !HasEdge(g, 3, 5) && !HasEdge(g, 4, 5);
  }

  /** In the star K1,5 (centre 1) the non-adjacent pairs are the ten pairs of leaves. */
  lemma K15SeparatorTotal(seps: SeparatorOracle)
    ensures SepTotal(GraphK15(), seps)
         == |seps(2, 3)| + |seps(2, 4)| + |seps(2, 5)| + |seps(2, 6)| + |seps(3, 4)|
          + |seps(3, 5)| + |seps(3, 6)| + |seps(4, 5)| + |seps(4, 6)| + |seps(5, 6)|
  {
    var g := GraphK15();
    assert HasEdge(g, 1, 2) && HasEdge(g, 1, 3) && HasEdge(g, 1, 4) && HasEdge(g, 1, 5) && HasEdge(g, 1, 6);
    assert !HasEdge(g, 2, 3) && !HasEdge(g, 2, 4) && !HasEdge(g, 2, 5) && !HasEdge(g, 2, 6);
    assert !HasEdge(g, 3, 4) && !HasEdge(g, 3, 5) && !HasEdge(g, 3, 6);
    assert !HasEdge(g, 4, 5) && !HasEdge(g, 4, 6) && !HasEdge(g, 5, 6);
  }

  lemma SingleVertexObjective()
    ensures RenderObjective(ObjectiveTerms(1, 1), true) == "Maximize\n  " + "1" + " x1,1 " + "\n"
  {
    var x := Var(1, 1);
    OneText();
    assert VarName(x) == " x1,1 ";
    assert PyMod(0, 1) == 0;
    var ts := ObjectiveTerms(1, 1);
    assert ts == [Term(1, x)];
    var texts := TermTexts(ts);
    assert |texts| == 1;
    assert texts[0] == TermText(Term(1, x)) == "1" + " x1,1 ";
    assert RenderObjective(ts, true) == "Maximize\n  " + texts[0] + "\n";
    AppendAssoc("Maximize\n  ", "1", " x1,1 ");
  }

  lemma SingleVertexGub()
    ensures Render(Gub(1, 1)) == "GUB1: x1,1 <= 1\n"
  {
    var x := Var(1, 1);
    OneText();
    assert Gub(1, 1).name == "GUB1";
    assert PlusText(Gub(1, 1).plus) == " x1,1 " by {
      assert Gub(1, 1).plus == [] + [x];
      PlusTextSnoc([], x);
      assert VarName(x) == " x1,1 ";
    }
    assert MinusText([]) == "";
  }

  lemma SingleVertexConstraints(seps: SeparatorOracle)
    ensures RenderConstraints(GubConstraints(1, 1) + SepConstraintsOf(SepKeys(Graph(1, {}), seps, 1), seps, LabelOffset))
         == "Subject To\n" + "GUB1: x1,1 <= 1\n"
  {
    var gub := Gub(1, 1);
    assert GubConstraints(1, 1) + SepConstraintsOf(SepKeys(Graph(1, {}), seps, 1), seps, LabelOffset) == [gub] by {
      assert SepKeys(Graph(1, {}), seps, 1) == [];
      assert GubConstraints(1, 1) == [gub];
    }
    assert RenderAll([gub]) == Render(gub) by {
      RenderAllSnoc([], gub);
      assert [] + [gub] == [gub];
    }
    SingleVertexGub();
  }

  lemma SingleVertexBinaries()
    ensures RenderBinaries(BinaryVars(1, 1)) == "Binaries\n x1,1 \n"
  {
    var x := Var(1, 1);
    OneText();
    assert VarName(x) == " x1,1 ";
    assert BinaryVars(1, 1) == [] + [x];
    VarsTextSnoc([], x);
  }

  /** The one-vertex graph with one colour, section by section. */
  lemma SingleVertexText(seps: SeparatorOracle)
    ensures Formulation(Graph(1, {}), seps, 1)
         == Success(("Maximize\n  " + "1" + " x1,1 " + "\n") + "\n" +
                    ("Subject To\n" + "GUB1: x1,1 <= 1\n") + "\n" +
                    "Bounds\n" + "\n" +
                    "Binaries\n x1,1 \n" + "\n" +
                    "End\n")
  {
    SingleVertexObjective();
    SingleVertexConstraints(seps);
    SingleVertexBinaries();
    FormulationText(Graph(1, {}), seps, 1);
  }
}
