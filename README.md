# Separators formulation of connected subpartition, as LP text

`get_ilp_formulation(G, k)` writes the integer program of the "separators
formulation" of connected subpartition of a graph `G` (vertices `1..n`) into
`k` connected subgraphs. The repository has two copies of it,
`connected_subpartition_polytope.py` and `write_lp_file.py`. Each writes a
CPLEX-LP-style text with these parts:

- a `Maximize` objective with one term `u * c` times `x[u,c]` per vertex `u`,
  where `c = (u-1) % k + 1`;
- a `Subject To` section with one `GUB` constraint per vertex (at most one
  colour per vertex);
- one separator inequality `x[u,c] + x[v,c] - sum over z in Z of x[z,c] <= 1`
  per non-adjacent pair `u < v`, per minimal `(u,v)`-separator `Z` of that
  pair, and per colour `c`;
- the `Bounds` header, a `Binaries` list of every variable, and `End`.

The copies differ in three ways:

- `connected_subpartition_polytope.py` numbers separators from 1 in labels,
  ends the objective with a newline and keeps the Binaries list;
- `write_lp_file.py` numbers them from 0 and stops the objective after its
  last term;
- `write_lp_file.py` builds the Binaries text and then replaces it with `"\n"`.

The model has three layers:

- **`LpModel`** (`lp_model.dfy`) is the structured layer. It holds the
  variables `Var(vertex, colour)`, the objective terms, the constraints
  `Constraint(name, plus, minus, rhs)`, and the separator constraints indexed
  by keys `(u, v, idx, c)` in emission order. They are produced by recursive
  functions that follow the loop nest. Lemmas prove membership, order and
  counts, and that labels are distinct.
- **`LpText`** (`lp_text.dfy`) turns the structured layer into the text the
  program writes. **`Decimal`** supplies Python's `str` on naturals, a reader
  for it, and `"sep".join`.
- **`LpBuilder`** (`lp_builder.dfy`) holds the loops themselves as imperative
  methods. They fill the `vars` map and grow the strings with `+=`. Each
  method is proved to produce exactly the rendering of the structured layer.
  Each nesting level of the separator loop nest is its own method.

The modules `ConnectedSubpartitionPolytope` and `WriteLpFile`, one per source
file, hold the two `get_ilp_formulation` methods, the specification function
`Formulation` each one meets, and the example graphs.

Other parts of the program that are not modelled:

- The separator enumerator `min_ab_separators` comes from the `separators`
  module, which is not part of this model. It is a parameter
  `seps: (nat, nat) -> seq<seq<nat>>`, giving each pair's separators in
  enumeration order and each separator's vertices in iteration order.
- `SeparatorsInRange` asks only that the enumerator's vertices lie in `1..n`.
- networkx is replaced by `Graph(n, edges)`, and `has_edge` by membership of
  `(u, v)` or `(v, u)`.

The code does not check `k` or the size of the graph:

- with `n >= 1` and `k == 0` it raises `ZeroDivisionError` at `(u-1) % k`;
- with `n >= 1` and `k < 0` it raises `KeyError` at the `vars` lookup,
  because `range(1, k+1)` is empty;
- with `n == 0` it returns the empty formulation.

`ObjectiveSection` and `GetIlpFormulation` state exactly these outcomes.

## Model

| member | source | states |
|---|---|---|
| Decimal.NatStr | connected_subpartition_polytope.py:64 | `str(n)` for a natural: decimal digits only, one digit exactly when n < 10, no leading zero |
| Decimal.ReadNatOfNatStr | connected_subpartition_polytope.py:64 | reading the digits of `str(n)` back gives n and leaves the following text untouched; this is what makes the names and labels below injective |
| LpText.ParseVarNameOfVarName | connected_subpartition_polytope.py:64 | the name `" x" + str(u) + "," + str(c) + " "` parses back to x[u, c] |
| LpText.VarNameInjective | connected_subpartition_polytope.py:61-64 | distinct (u, c) pairs get distinct variable names |
| LpBuilder.VariableTable | connected_subpartition_polytope.py:61-64 | the filled `vars` map has exactly the keys (u, c) with 1 <= u <= n, 1 <= c <= k, each mapped to its name |
| LpModel.PyMod | connected_subpartition_polytope.py:69 | Python's `%`: for a positive divisor the result lies in [0, b), for a negative one in (b, 0], and a equals the floored quotient times b plus the result |
| LpModel.ObjectiveColour | connected_subpartition_polytope.py:69-70 | the colour `(u-1) % k + 1` lies in [1, k] when k >= 1 |
| LpModel.ObjectiveTerms | connected_subpartition_polytope.py:68-70 | the objective has exactly n terms |
| LpModel.ObjectiveTermsShape | connected_subpartition_polytope.py:68-70 | term i is vertex i + 1 with colour (i mod k) + 1 in [1, k] and coefficient vertex times colour |
| LpBuilder.ObjectiveSection | connected_subpartition_polytope.py:67-74 | the loop fails exactly when n >= 1 and k < 1 (ZeroDivisionError for k == 0, KeyError for k < 0); otherwise it yields "Maximize", the n terms joined by "+ ", and "\n" after the last term in the copy that writes it (write_lp_file.py:30-35 omits it) |
| LpModel.GubConstraintsShape | connected_subpartition_polytope.py:78-84 | n GUB constraints in order GUB1..GUBn; GUBu is labelled "GUB" + str(u), sums x[u,1..k] with no minus terms and has right-hand side 1; every variable occurs in exactly one GUB term |
| LpBuilder.AppendGubConstraint | connected_subpartition_polytope.py:79-84 | one pass of the GUB loop appends exactly the rendering of GUBu: "GUB" + str(u) + ":", the names of x[u,1..k] joined by "+", then "<= 1\n" |
| LpBuilder.AppendGubConstraints | connected_subpartition_polytope.py:78-84 | the GUB loop appends exactly the rendering of GUB1..GUBn: label, ":", the names joined by "+", "<= 1\n" |
| LpModel.SepKeysMembership | connected_subpartition_polytope.py:86-92 | a separator constraint is emitted for (u, v, idx, c) exactly when 1 <= u < v <= n, u and v are not adjacent, idx indexes a separator of the pair and 1 <= c <= k |
| LpModel.CompleteGraphHasNoSeparatorConstraints | connected_subpartition_polytope.py:86-88 | if every pair u < v is adjacent, no separator constraint is emitted |
| LpModel.SepKeysIncreasing | connected_subpartition_polytope.py:86-92 | separator constraints come in strictly increasing order of u, then v, then separator index, then colour |
| LpModel.SepKeysCount | connected_subpartition_polytope.py:86-92 | the number of separator constraints is k times the total number of separators over non-adjacent pairs u < v |
| LpModel.SepConstraintsShape | connected_subpartition_polytope.py:94-100 | the constraint of key (u, v, idx, c) is labelled "(u,v)-SEP_#" + str(idx + offset) + "_c" + str(c), has plus terms x[u,c], x[v,c], one minus term x[z,c] per z of the separator in its order, and right-hand side 1 |
| LpModel.ParseSepLabelOfSepLabel | connected_subpartition_polytope.py:94-95 | a separator label parses back to its (u, v, printed index, c) |
| LpModel.ParseGubLabelOfGubLabel | connected_subpartition_polytope.py:79 | a GUB label parses back to its vertex |
| LpModel.GubLabelsDistinct | connected_subpartition_polytope.py:78-79 | the GUB labels are pairwise distinct |
| LpModel.SepLabelsDistinct | connected_subpartition_polytope.py:94-95 | separator labels of keys in emission order are pairwise distinct |
| LpModel.GubAndSepLabelsDiffer | connected_subpartition_polytope.py:79-95 | no GUB label equals a separator label |
| LpModel.ConstraintLabelsDistinct | connected_subpartition_polytope.py:76-100 | no two constraints of one output share a label, for either label base |
| LpBuilder.AppendSeparatorConstraint | connected_subpartition_polytope.py:94-100 | the body of the colour loop appends the rendering of one separator constraint: label, ":", x[u,c] + "+" + x[v,c], "-" + x[z,c] per z, "<= 1\n" |
| LpBuilder.AppendColourConstraints | connected_subpartition_polytope.py:92-100 | the colour loop appends the constraints of one separator for colours 1..k in order |
| LpBuilder.AppendPairConstraints | connected_subpartition_polytope.py:90-100 | the `enumerate(separators)` loop appends the constraints of every separator of one pair, in enumeration order |
| LpBuilder.AppendRowConstraints | connected_subpartition_polytope.py:87-100 | the v loop appends the constraints of the non-adjacent pairs (u, v), v = u+1..n, and nothing for adjacent ones |
| LpBuilder.AppendSeparatorConstraints | connected_subpartition_polytope.py:86-100 | the separator loop nest appends exactly the separator constraints in emission order |
| LpBuilder.ConstraintsSection | connected_subpartition_polytope.py:76-100 | the constraints text is "Subject To\n", then the GUB constraints, then the separator constraints |
| LpModel.BinaryVarsEnumerate | connected_subpartition_polytope.py:105-109 | the Binaries list has n * k variables, strictly increasing in (vertex, colour), and contains x[u, c] exactly when 1 <= u <= n and 1 <= c <= k |
| LpModel.GubTermsAreBinaries | connected_subpartition_polytope.py:78-108 | the GUB terms, lined up, are exactly the Binaries list |
| LpBuilder.AppendColourVariables | connected_subpartition_polytope.py:107-108 | the inner Binaries loop appends the names of x[u,1..k] in colour order |
| LpBuilder.BinariesSection | connected_subpartition_polytope.py:105-109 | the domain text is "Binaries\n", every variable name vertex-major, then "\n" |
| ConnectedSubpartitionPolytope.GetIlpFormulation | connected_subpartition_polytope.py:51-113 | the whole function fails exactly when n >= 1 and k < 1, with the Python exception it raises, and otherwise returns `Formulation`: the five sections joined with "\n" |
| ConnectedSubpartitionPolytope.FormulationText | connected_subpartition_polytope.py:103-112 | the output is objective, "\n", constraints, "\n", "Bounds\n", "\n", the Binaries list, "\n", "End\n" |
| ConnectedSubpartitionPolytope.ClawSeparatorTotal | connected_subpartition_polytope.py:21-25 | in the claw the separator constraints come from the pairs (1,2), (1,4) and (2,4) only |
| ConnectedSubpartitionPolytope.ClawConstraintCount | connected_subpartition_polytope.py:21-25 | for the claw with k = 3 and the single separator {3} for each non-adjacent pair, there are 9 separator constraints and 13 constraints in all |
| ConnectedSubpartitionPolytope.C4SeparatorTotal | connected_subpartition_polytope.py:15-19 | in the 4-cycle the separator constraints come from the diagonals (1,3) and (2,4) only |
| ConnectedSubpartitionPolytope.C4ConstraintCount | connected_subpartition_polytope.py:15-19 | with two separators per diagonal of the 4-cycle there are exactly 4 separator constraints per colour |
| ConnectedSubpartitionPolytope.PawSeparatorTotal | connected_subpartition_polytope.py:27-31 | in the paw the separator constraints come from the pairs (1,4) and (2,4) only |
| ConnectedSubpartitionPolytope.DiamondSeparatorTotal | connected_subpartition_polytope.py:33-37 | in the diamond the separator constraints come from the pair (2,4) only |
| ConnectedSubpartitionPolytope.K14SeparatorTotal | connected_subpartition_polytope.py:39-43 | in the star K1,4 the separator constraints come from the six pairs of leaves |
| ConnectedSubpartitionPolytope.K15SeparatorTotal | connected_subpartition_polytope.py:45-49 | in the star K1,5 the separator constraints come from the ten pairs of leaves |
| ConnectedSubpartitionPolytope.SingleVertexObjective | connected_subpartition_polytope.py:67-74 | for one vertex and k = 1 the objective is "Maximize\n  1 x1,1 \n" |
| ConnectedSubpartitionPolytope.SingleVertexConstraints | connected_subpartition_polytope.py:76-100 | for one vertex and k = 1 the constraints are "Subject To\nGUB1: x1,1 <= 1\n" |
| ConnectedSubpartitionPolytope.SingleVertexBinaries | connected_subpartition_polytope.py:105-109 | for one vertex and k = 1 the domain is "Binaries\n x1,1 \n" |
| ConnectedSubpartitionPolytope.SingleVertexText | connected_subpartition_polytope.py:51-113 | the whole output for one vertex and k = 1, section by section |
| WriteLpFile.GetIlpFormulation | write_lp_file.py:14-74 | the same failure cases; otherwise the five sections, with 0-based separator labels, no newline after the objective, and "\n" in place of the Binaries list it built |
| WriteLpFile.FormulationText | write_lp_file.py:64-73 | the output is objective, "\n", constraints, "\n", "Bounds\n", "\n", "\n", "\n", "End\n", so nothing follows "Bounds" but blank lines, whatever G and k are |
| WriteLpFile.FirstSeparatorLabel | write_lp_file.py:55-56 | the first separator of every pair is labelled "(u,v)-SEP_#0_c" + str(c) |
| WriteLpFile.P5SeparatorTotal | write_lp_file.py:8-12 | in the path P5 the separator constraints come from the six pairs at distance two or more |

## Left out

- `min_ab_separators` is not modelled; the model takes its results as the parameter `seps`. Nothing is proved about whether the separators are minimal or complete.
- A separator vertex outside `1..n` would raise `KeyError` at `vars[z,c]`; the model excludes it with the precondition `SeparatorsInRange` instead of modelling that error.
- `main()` in both files, the file writes and the polymake call are I/O and are not modelled.
- The `print("sep(...)")` progress line is output only, not part of the result, and is not modelled.
- `m = G.number_of_edges()` is computed and never used, so it is not modelled.
- networkx is not modelled. A graph is a vertex count and an edge set, and vertices are assumed to be labelled `1..n`.
- ConnectedSubpartitionPolytope.GraphP5: the copy of `get_graph_P5` in connected_subpartition_polytope.py is the same graph as `WriteLpFile.GraphP5`; its separator count is stated once, as `WriteLpFile.P5SeparatorTotal`.
- LpBuilder.ObjectiveSection: for k < 0 it looks up the variable before it forms `str(u * colour)`. The source forms that string first (the coefficient may then be negative). Both raise the same KeyError, so the result is the same.
- LpBuilder.ObjectiveSection: the source's `if u < n ... else ...` appends to the objective in two statements; the model appends both cases with one conditional expression.
- LpBuilder.AppendGubConstraint, LpBuilder.AppendColourVariables, LpBuilder.AppendColourConstraints, LpBuilder.AppendPairConstraints, LpBuilder.AppendRowConstraints: each inner loop is its own method rather than part of one body, so that each loop carries its own invariant.
- Idempotence is not stated: every member is a function of its inputs or a method with no state, so calling it twice gives the same result by construction.
