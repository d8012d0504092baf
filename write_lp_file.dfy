/**
 * write_lp_file.py: get_ilp_formulation as that copy writes it. Its separator
 * labels count from 0, its objective has no newline after the last term, and
 * its Binaries text is built and then replaced by "\n".
 */
module WriteLpFile {
  import opened Wrappers
  import opened Decimal
  import opened LpModel
  import opened LpText
  import opened LpBuilder

  function GraphP5(): Graph {
    Graph(5, {(1, 2), (2, 3), (3, 4), (4, 5)})
  }

  /** Separator numbers are printed from 0 in this copy. */
  const LabelOffset: nat := 0

  /** The sections of the LP text: the domain section is a bare "\n". */
  function Sections(m: Model): seq<string> {
    [RenderObjective(m.objective, false), RenderConstraints(m.constraints), "Bounds\n", "\n", "End\n"]
  }

  /** What this copy of get_ilp_formulation(G, k) returns or raises. */
  function Formulation(g: Graph, seps: SeparatorOracle, k: int): Result<string, PyError> {
    if g.n >= 1 && k < 1 then Failure(if k == 0 then ZeroDivisionError else KeyError)
    else Success(Join("\n", Sections(Build(g, seps, k, LabelOffset))))
  }

  /** get_ilp_formulation, loop for loop, including the discarded Binaries loop. */
  method GetIlpFormulation(g: Graph, seps: SeparatorOracle, k: int) returns (r: Result<string, PyError>)
    requires SeparatorsInRange(g, seps)
    ensures r.Failure? <==> g.n >= 1 && k < 1
    ensures r.Failure? ==> r.error == if k == 0 then ZeroDivisionError else KeyError
    ensures r == Formulation(g, seps, k)
  {
    var n := g.n;
    var vars := VariableTable(n, k);
    var objective :- ObjectiveSection(n, k, vars, false);
    var constraints := ConstraintsSection(g, k, vars, seps, LabelOffset);
    var bounds := "Bounds\n";
    var domain := BinariesSection(n, k, vars);
    domain := "\n";
    var sections := [objective, constraints, bounds, domain, "End\n"];
    r := Success(Join("\n", sections));
  }

  /**
   * The output, written out: the objective (no newline after its last term),
   * a newline, the constraints, a blank line, "Bounds", a newline, the "\n"
   * left in place of the Binaries section, a newline and "End". Whatever g and
   * k are, no variable list follows "Bounds".
   */
  lemma FormulationText(g: Graph, seps: SeparatorOracle, k: int)
    requires g.n == 0 || k >= 1
    ensures Formulation(g, seps, k) == Success(
      RenderObjective(ObjectiveTerms(g.n, k), false) + "\n" +
      RenderConstraints(GubConstraints(g.n, k) + SepConstraintsOf(SepKeys(g, seps, k), seps, LabelOffset)) + "\n" +
      "Bounds\n" + "\n" +
      "\n" + "\n" +
      "End\n")
  {
    var m := Build(g, seps, k, LabelOffset);
    JoinFive("\n", RenderObjective(m.objective, false), RenderConstraints(m.constraints), "Bounds\n", "\n", "End\n");
  }

  /** The first separator of every pair is labelled #0. */
  lemma FirstSeparatorLabel(g: Graph, seps: SeparatorOracle, k: int, key: SepKey)
    requires key in SepKeys(g, seps, k) && key.idx == 0
    ensures SepConstraint(key, seps, LabelOffset).name
         == ("(" + NatStr(key.u) + "," + NatStr(key.v) + ")-SEP_") + ("#0" + "_c" + NatStr(key.c))
  {
    assert NatStr(0) == "0";
  }

  /** In the path 1-2-3-4-5 the non-adjacent pairs are those at distance 2 or more. */
  lemma P5SeparatorTotal(seps: SeparatorOracle)
    ensures SepTotal(GraphP5(), seps)
         == |seps(1, 3)| + |seps(1, 4)| + |seps(1, 5)| + |seps(2, 4)| + |seps(2, 5)| + |seps(3, 5)|
  {
    var g := GraphP5();
    assert HasEdge(g, 1, 2) && HasEdge(g, 2, 3) && HasEdge(g, 3, 4) && HasEdge(g, 4, 5);
    assert !HasEdge(g, 1, 3) && !HasEdge(g, 1, 4) && !HasEdge(g, 1, 5);
    assert !HasEdge(g, 2, 4) && !HasEdge(g, 2, 5) && !HasEdge(g, 3, 5);
  }
}
