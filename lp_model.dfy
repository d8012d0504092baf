/**
 * The structured layer of the "separators formulation" of connected
 * subpartition: the variables x[u,c], the objective, the GUB constraints, the
 * separator constraints and the binaries, as the nested loops of
 * get_ilp_formulation produce them, before any of it is turned into text.
 */
module LpModel {
  import opened Wrappers
  import opened Decimal

  /** A graph on the vertices 1..n; an undirected edge may be stored either way round. */
  datatype Graph = Graph(n: nat, edges: set<(nat, nat)>)

  /** networkx's `G.has_edge(u, v)` on an undirected graph. */
  predicate HasEdge(g: Graph, u: nat, v: nat) {
    (u, v) in g.edges || (v, u) in g.edges
  }

  /**
   * The separator enumerator `min_ab_separators(G, u, v)`, which is not part of
   * this model: for each pair, its separators in enumeration order, each
   * separator listing its vertices in iteration order.
   */
  type SeparatorOracle = (nat, nat) -> seq<seq<nat>>

  /** What the enumerator is assumed to guarantee: separators consist of vertices of G. */
  ghost predicate SeparatorsInRange(g: Graph, seps: SeparatorOracle) {
    forall u, v, i, j ::
      1 <= u < v <= g.n && !HasEdge(g, u, v) && 0 <= i < |seps(u, v)| && 0 <= j < |seps(u, v)[i]|
      ==> 1 <= seps(u, v)[i][j] <= g.n
  }

  /** The exceptions the builder can raise. */
  datatype PyError = ZeroDivisionError | KeyError

  /** How many colours `range(1, k + 1)` yields. */
  function Colours(k: int): nat {
    if k > 0 then k else 0
  }

  /** Python's `a % b`: the remainder has the sign of the divisor. */
  function PyMod(a: int, b: int): (r: int)
    requires b != 0
    ensures b > 0 ==> 0 <= r < b
    ensures b < 0 ==> b < r <= 0
    ensures a == (if b > 0 then a / b else (-a) / (-b)) * b + r
  {
    if b > 0 then a % b else -((-a) % (-b))
  }

  /** The variable x[vertex, colour]. */
  datatype Var = Var(vertex: nat, colour: nat)

  /** One objective term: coef * x. */
  datatype Term = Term(coef: nat, x: Var)

  /** label: (+plus[0] + plus[1] ...) (-minus[0] - minus[1] ...) <= rhs */
  datatype Constraint = Constraint(name: string, plus: seq<Var>, minus: seq<Var>, rhs: nat)

  /** Identifies one separator constraint: pair (u, v), separator index idx, colour c. */
  datatype SepKey = SepKey(u: nat, v: nat, idx: nat, c: nat)

  datatype Model = Model(objective: seq<Term>, constraints: seq<Constraint>, binaries: seq<Var>)

  // ---------------------------------------------------------------- objective

  /** The colour the objective uses for vertex u: (u - 1) % k + 1. */
  function ObjectiveColour(u: nat, k: int): (c: nat)
    requires u >= 1 && k >= 1
    ensures 1 <= c <= k
  {
    PyMod(u - 1, k) + 1
  }

  function ObjectiveTerm(u: nat, k: int): Term
    requires u >= 1 && k >= 1
  {
    var c := ObjectiveColour(u, k);
    Term(u * c, Var(u, c))
  }

  /** The objective: one term per vertex, in vertex order. */
  function ObjectiveTerms(n: nat, k: int): (ts: seq<Term>)
    requires n == 0 || k >= 1
    ensures |ts| == n
  {
    seq(n, i requires 0 <= i < n => ObjectiveTerm(i + 1, k))
  }

  /**
   * Term i (0-based) of the objective is vertex i + 1 with the colour
   * (i mod k) + 1, weighted by vertex times colour.
   */
  lemma ObjectiveTermsShape(n: nat, k: int)
    requires n == 0 || k >= 1
    ensures forall i :: 0 <= i < n ==>
      var t := ObjectiveTerms(n, k)[i];
      t.x.vertex == i + 1 && 1 <= t.x.colour <= k && t.x.colour == i % k + 1 && t.coef == (i + 1) * t.x.colour
  {
  }

  // ---------------------------------------------------------- GUB constraints

  /** x[u, 1], ..., x[u, k]. */
  function ColourVars(u: nat, k: int): seq<Var> {
    seq(Colours(k), c requires 0 <= c < Colours(k) => Var(u, c + 1))
  }

  function GubLabel(u: nat): string {
    "GUB" + NatStr(u)
  }

  /** GUBu: x[u, 1] + ... + x[u, k] <= 1 (at most one colour per vertex). */
  function Gub(u: nat, k: int): Constraint {
    Constraint(GubLabel(u), ColourVars(u, k), [], 1)
  }

  function GubConstraints(n: nat, k: int): seq<Constraint> {
    seq(n, i requires 0 <= i < n => Gub(i + 1, k))
  }

  /** All plus-terms of a list of constraints, in order. */
  function PlusTerms(cs: seq<Constraint>): seq<Var>
    decreases |cs|
  {
    if cs == [] then [] else PlusTerms(cs[..|cs| - 1]) + cs[|cs| - 1].plus
  }

  // ------------------------------------------------------------------ binaries

  /** The Binaries list: every variable, vertex-major then colour. */
  function BinaryVars(n: nat, k: int): seq<Var>
    decreases n
  {
    if n == 0 then [] else BinaryVars(n - 1, k) + ColourVars(n, k)
  }

  predicate VarLess(a: Var, b: Var) {
    a.vertex < b.vertex || (a.vertex == b.vertex && a.colour < b.colour)
  }

  lemma {:induction false} BinaryVarsBounds(n: nat, k: int)
    ensures forall i :: 0 <= i < |BinaryVars(n, k)| ==>
      1 <= BinaryVars(n, k)[i].vertex <= n && 1 <= BinaryVars(n, k)[i].colour <= k
    decreases n
  {
    if n > 0 {
      BinaryVarsBounds(n - 1, k);
    }
  }

  /**
   * The Binaries list holds n * k variables, in strictly increasing
   * (vertex, colour) order (so none twice), and x[u, c] is among them exactly
   * when 1 <= u <= n and 1 <= c <= k.
   */
  lemma {:induction false} BinaryVarsEnumerate(n: nat, k: int)
    ensures |BinaryVars(n, k)| == n * Colours(k)
    ensures forall i, j :: 0 <= i < j < |BinaryVars(n, k)| ==> VarLess(BinaryVars(n, k)[i], BinaryVars(n, k)[j])
    ensures forall x :: x in BinaryVars(n, k) <==> 1 <= x.vertex <= n && 1 <= x.colour <= k
    decreases n
  {
    if n > 0 {
      BinaryVarsEnumerate(n - 1, k);
      BinaryVarsBounds(n - 1, k);
      var a, b := BinaryVars(n - 1, k), ColourVars(n, k);
      assert BinaryVars(n, k) == a + b;
      assert |a + b| == (n - 1) * Colours(k) + Colours(k) == n * Colours(k);
      forall i, j | 0 <= i < j < |a + b| ensures VarLess((a + b)[i], (a + b)[j]) {
        if j < |a| {
          assert (a + b)[i] == a[i] && (a + b)[j] == a[j];
        } else if i < |a| {
          assert (a + b)[i] == a[i] && (a + b)[j] == b[j - |a|];
        } else {
          assert (a + b)[i] == b[i - |a|] && (a + b)[j] == b[j - |a|];
        }
      }
      forall x ensures x in a + b <==> 1 <= x.vertex <= n && 1 <= x.colour <= k {
        if x.vertex == n && 1 <= x.colour <= k {
          assert b[x.colour - 1] == x;
        }
      }
    }
  }

  /** Lined up, the terms of GUB1..GUBn are exactly the Binaries list. */
  lemma {:induction false} GubTermsAreBinaries(n: nat, k: int)
    ensures PlusTerms(GubConstraints(n, k)) == BinaryVars(n, k)
    decreases n
  {
    if n > 0 {
      assert GubConstraints(n, k)[..n - 1] == GubConstraints(n - 1, k);
      GubTermsAreBinaries(n - 1, k);
    }
  }

  /**
   * GUBu carries label "GUB" + str(u), the terms x[u, 1..k] and right-hand side 1,
   * and every variable x[u, c] occurs in exactly one GUB term (that of GUBu).
   */
  lemma GubConstraintsShape(n: nat, k: int)
    ensures |GubConstraints(n, k)| == n
    ensures forall u :: 1 <= u <= n ==>
      var g := GubConstraints(n, k)[u - 1];
      g.name == "GUB" + NatStr(u) && g.minus == [] && g.rhs == 1 && |g.plus| == Colours(k) &&
      forall c :: 1 <= c <= Colours(k) ==> g.plus[c - 1] == Var(u, c)
    ensures forall x :: x in PlusTerms(GubConstraints(n, k)) <==> 1 <= x.vertex <= n && 1 <= x.colour <= k
    ensures forall i, j :: 0 <= i < j < |PlusTerms(GubConstraints(n, k))| ==>
      PlusTerms(GubConstraints(n, k))[i] != PlusTerms(GubConstraints(n, k))[j]
  {
    GubTermsAreBinaries(n, k);
    BinaryVarsEnumerate(n, k);
  }

  // ---------------------------------------------------- separator constraints

  /** Colours 1..k of separator idx of pair (u, v). */
  function ColourKeys(u: nat, v: nat, idx: nat, k: int): seq<SepKey> {
    seq(Colours(k), i requires 0 <= i < Colours(k) => SepKey(u, v, idx, i + 1))
  }

  /** The first m separators of pair (u, v), each for every colour. */
  function PairKeys(u: nat, v: nat, m: nat, k: int): seq<SepKey>
    decreases m
  {
    if m == 0 then [] else PairKeys(u, v, m - 1, k) + ColourKeys(u, v, m - 1, k)
  }

  /** The keys row u gains at v = w. */
  function RowTail(g: Graph, seps: SeparatorOracle, k: int, u: nat, w: nat): seq<SepKey> {
    if HasEdge(g, u, w) then [] else PairKeys(u, w, |seps(u, w)|, k)
  }

  /** The pairs (u, v) with u < v <= w, skipping adjacent ones. */
  function RowKeys(g: Graph, seps: SeparatorOracle, k: int, u: nat, w: nat): seq<SepKey>
    decreases w
  {
    if w <= u then []
    else RowKeys(g, seps, k, u, w - 1) + RowTail(g, seps, k, u, w)
  }

  /** The rows u = 1..t. */
  function SepKeysUpTo(g: Graph, seps: SeparatorOracle, k: int, t: nat): seq<SepKey>
    decreases t
  {
    if t == 0 then [] else SepKeysUpTo(g, seps, k, t - 1) + RowKeys(g, seps, k, t, g.n)
  }

  /** The separator constraints in emission order. */
  function SepKeys(g: Graph, seps: SeparatorOracle, k: int): seq<SepKey> {
    SepKeysUpTo(g, seps, k, g.n)
  }

  /** The keys a separator constraint is emitted for. */
  predicate IsSepKey(g: Graph, seps: SeparatorOracle, k: int, key: SepKey) {
    1 <= key.u < key.v <= g.n && !HasEdge(g, key.u, key.v) && key.idx < |seps(key.u, key.v)| && 1 <= key.c <= k
  }

  /** The loop order u, v, idx, c, lexicographically. */
  predicate KeyLess(a: SepKey, b: SepKey) {
    a.u < b.u || (a.u == b.u && (a.v < b.v || (a.v == b.v && (a.idx < b.idx || (a.idx == b.idx && a.c < b.c)))))
  }

  predicate Increasing(ks: seq<SepKey>) {
    forall i, j :: 0 <= i < j < |ks| ==> KeyLess(ks[i], ks[j])
  }

  lemma ColourKeysMembership(u: nat, v: nat, idx: nat, k: int, key: SepKey)
    ensures key in ColourKeys(u, v, idx, k) <==> key.u == u && key.v == v && key.idx == idx && 1 <= key.c <= k
  {
    if key.u == u && key.v == v && key.idx == idx && 1 <= key.c <= k {
      assert ColourKeys(u, v, idx, k)[key.c - 1] == key;
    }
  }

  lemma {:induction false} PairKeysMembership(u: nat, v: nat, m: nat, k: int, key: SepKey)
    ensures key in PairKeys(u, v, m, k) <==> key.u == u && key.v == v && key.idx < m && 1 <= key.c <= k
    decreases m
  {
    if m > 0 {
      PairKeysMembership(u, v, m - 1, k, key);
      ColourKeysMembership(u, v, m - 1, k, key);
    }
  }

  lemma RowTailMembership(g: Graph, seps: SeparatorOracle, k: int, u: nat, w: nat, key: SepKey)
    ensures key in RowTail(g, seps, k, u, w) <==>
      key.u == u && key.v == w && !HasEdge(g, u, w) && key.idx < |seps(u, w)| && 1 <= key.c <= k
  {
    PairKeysMembership(u, w, |seps(u, w)|, k, key);
  }

  lemma {:induction false} RowKeysMembership(g: Graph, seps: SeparatorOracle, k: int, u: nat, w: nat, key: SepKey)
    ensures key in RowKeys(g, seps, k, u, w) <==>
      key.u == u && u < key.v <= w && !HasEdge(g, u, key.v) && key.idx < |seps(u, key.v)| && 1 <= key.c <= k
    decreases w
  {
    if w > u {
      RowKeysMembership(g, seps, k, u, w - 1, key);
      RowTailMembership(g, seps, k, u, w, key);
    }
  }

  lemma {:induction false} SepKeysUpToMembership(g: Graph, seps: SeparatorOracle, k: int, t: nat, key: SepKey)
    ensures key in SepKeysUpTo(g, seps, k, t) <==> key.u <= t && IsSepKey(g, seps, k, key)
    decreases t
  {
    if t > 0 {
      SepKeysUpToMembership(g, seps, k, t - 1, key);
      RowKeysMembership(g, seps, k, t, g.n, key);
    }
  }

  /**
   * A separator constraint is emitted for (u, v, idx, c) exactly when
   * 1 <= u < v <= n, u and v are not adjacent, idx is the index of one of the
   * pair's separators and 1 <= c <= k.
   */
  lemma SepKeysMembership(g: Graph, seps: SeparatorOracle, k: int, key: SepKey)
    ensures key in SepKeys(g, seps, k) <==> IsSepKey(g, seps, k, key)
  {
    SepKeysUpToMembership(g, seps, k, g.n, key);
  }

  /** A complete graph gets no separator constraints. */
  lemma CompleteGraphHasNoSeparatorConstraints(g: Graph, seps: SeparatorOracle, k: int)
    requires forall u, v :: 1 <= u < v <= g.n ==> HasEdge(g, u, v)
    ensures SepKeys(g, seps, k) == []
  {
    if SepKeys(g, seps, k) != [] {
      SepKeysMembership(g, seps, k, SepKeys(g, seps, k)[0]);
    }
  }

  lemma IncreasingConcat(a: seq<SepKey>, b: seq<SepKey>)
    requires Increasing(a) && Increasing(b)
    requires forall x, y :: x in a && y in b ==> KeyLess(x, y)
    ensures Increasing(a + b)
  {
    forall i, j | 0 <= i < j < |a + b| ensures KeyLess((a + b)[i], (a + b)[j]) {
      if j < |a| {
        assert (a + b)[i] == a[i] && (a + b)[j] == a[j];
      } else if i < |a| {
        assert (a + b)[i] == a[i] && (a + b)[j] == b[j - |a|];
      } else {
        assert (a + b)[i] == b[i - |a|] && (a + b)[j] == b[j - |a|];
      }
    }
  }

  lemma {:induction false} PairKeysIncreasing(u: nat, v: nat, m: nat, k: int)
    ensures Increasing(PairKeys(u, v, m, k))
    decreases m
  {
    if m > 0 {
      var a, b := PairKeys(u, v, m - 1, k), ColourKeys(u, v, m - 1, k);
      PairKeysIncreasing(u, v, m - 1, k);
      assert Increasing(b);
      assert forall x, y :: x in a && y in b ==> KeyLess(x, y) by {
        forall x | x in a ensures x.u == u && x.v == v && x.idx < m - 1 {
          PairKeysMembership(u, v, m - 1, k, x);
        }
        forall y | y in b ensures y.u == u && y.v == v && y.idx == m - 1 {
          ColourKeysMembership(u, v, m - 1, k, y);
        }
      }
      IncreasingConcat(a, b);
    }
  }

  lemma {:induction false} RowKeysIncreasing(g: Graph, seps: SeparatorOracle, k: int, u: nat, w: nat)
    ensures Increasing(RowKeys(g, seps, k, u, w))
    decreases w
  {
    if w > u {
      var a := RowKeys(g, seps, k, u, w - 1);
      var tail := RowTail(g, seps, k, u, w);
      RowKeysIncreasing(g, seps, k, u, w - 1);
      PairKeysIncreasing(u, w, |seps(u, w)|, k);
      assert forall x, y :: x in a && y in tail ==> KeyLess(x, y) by {
        forall x | x in a ensures x.u == u && x.v < w {
          RowKeysMembership(g, seps, k, u, w - 1, x);
        }
        forall y | y in tail ensures y.u == u && y.v == w {
          PairKeysMembership(u, w, |seps(u, w)|, k, y);
        }
      }
      IncreasingConcat(a, tail);
    }
  }

  lemma RowKeysOfRow(g: Graph, seps: SeparatorOracle, k: int, u: nat, w: nat)
    ensures forall y :: y in RowKeys(g, seps, k, u, w) ==> y.u == u
  {
    forall y | y in RowKeys(g, seps, k, u, w) ensures y.u == u {
      RowKeysMembership(g, seps, k, u, w, y);
    }
  }

  lemma SepKeysUpToRows(g: Graph, seps: SeparatorOracle, k: int, t: nat)
    ensures forall x :: x in SepKeysUpTo(g, seps, k, t) ==> x.u <= t
  {
    forall x | x in SepKeysUpTo(g, seps, k, t) ensures x.u <= t {
      SepKeysUpToMembership(g, seps, k, t, x);
    }
  }

  lemma {:induction false} SepKeysUpToIncreasing(g: Graph, seps: SeparatorOracle, k: int, t: nat)
    ensures Increasing(SepKeysUpTo(g, seps, k, t))
    decreases t
  {
    if t > 0 {
      SepKeysUpToIncreasing(g, seps, k, t - 1);
      RowKeysIncreasing(g, seps, k, t, g.n);
      SepKeysUpToRows(g, seps, k, t - 1);
      RowKeysOfRow(g, seps, k, t, g.n);
      IncreasingConcat(SepKeysUpTo(g, seps, k, t - 1), RowKeys(g, seps, k, t, g.n));
    }
  }

  /** Separator constraints come ordered by u, then v, then separator index, then colour. */
  lemma SepKeysIncreasing(g: Graph, seps: SeparatorOracle, k: int)
    ensures Increasing(SepKeys(g, seps, k))
  {
    SepKeysUpToIncreasing(g, seps, k, g.n);
  }

  /** Sum over u <= w of |separators(u, v)| for the non-adjacent pairs u < v <= w. */
  function RowTotal(g: Graph, seps: SeparatorOracle, u: nat, w: nat): nat
    decreases w
  {
    if w <= u then 0 else RowTotal(g, seps, u, w - 1) + (if HasEdge(g, u, w) then 0 else |seps(u, w)|)
  }

  function SepTotalUpTo(g: Graph, seps: SeparatorOracle, t: nat): nat
    decreases t
  {
    if t == 0 then 0 else SepTotalUpTo(g, seps, t - 1) + RowTotal(g, seps, t, g.n)
  }

  /** The number of separators over all non-adjacent pairs u < v. */
  function SepTotal(g: Graph, seps: SeparatorOracle): nat {
    SepTotalUpTo(g, seps, g.n)
  }

  lemma MulAddDistrib(a: nat, b: nat, c: nat)
    ensures a * b + a * c == a * (b + c)
  {
  }

  lemma {:induction false} PairKeysCount(u: nat, v: nat, m: nat, k: int)
    ensures |PairKeys(u, v, m, k)| == m * Colours(k)
    decreases m
  {
    if m > 0 {
      PairKeysCount(u, v, m - 1, k);
      assert (m - 1) * Colours(k) + Colours(k) == m * Colours(k);
    }
  }

  lemma {:induction false} RowKeysCount(g: Graph, seps: SeparatorOracle, k: int, u: nat, w: nat)
    ensures |RowKeys(g, seps, k, u, w)| == Colours(k) * RowTotal(g, seps, u, w)
    decreases w
  {
    if w > u {
      var tail := RowTail(g, seps, k, u, w);
      var here := if HasEdge(g, u, w) then 0 else |seps(u, w)|;
      assert |tail| == Colours(k) * here by {
        PairKeysCount(u, w, |seps(u, w)|, k);
      }
      RowKeysCount(g, seps, k, u, w - 1);
      MulAddDistrib(Colours(k), RowTotal(g, seps, u, w - 1), here);
    }
  }

  lemma {:induction false} SepKeysUpToCount(g: Graph, seps: SeparatorOracle, k: int, t: nat)
    ensures |SepKeysUpTo(g, seps, k, t)| == Colours(k) * SepTotalUpTo(g, seps, t)
    decreases t
  {
    if t > 0 {
      SepKeysUpToCount(g, seps, k, t - 1);
      RowKeysCount(g, seps, k, t, g.n);
      MulAddDistrib(Colours(k), SepTotalUpTo(g, seps, t - 1), RowTotal(g, seps, t, g.n));
    }
  }

  /** There are k * (sum over non-adjacent u < v of |separators(u, v)|) separator constraints. */
  lemma SepKeysCount(g: Graph, seps: SeparatorOracle, k: int)
    ensures |SepKeys(g, seps, k)| == Colours(k) * SepTotal(g, seps)
  {
    SepKeysUpToCount(g, seps, k, g.n);
  }

  /** The label of separator constraint number `i` (as printed) of pair (u, v) at colour c. */
  function SepLabel(u: nat, v: nat, i: nat, c: nat): string {
    ("(" + NatStr(u) + "," + NatStr(v) + ")-SEP_") + ("#" + NatStr(i) + "_c" + NatStr(c))
  }

  /** x[z, c] for every z of the separator, in the separator's order. */
  function SeparatorVars(z: seq<nat>, c: nat): seq<Var> {
    seq(|z|, j requires 0 <= j < |z| => Var(z[j], c))
  }

  /** x[u, c] + x[v, c] - (sum over z of x[z, c]) <= 1, labelled with printed index i. */
  function SepConstraintFor(u: nat, v: nat, i: nat, c: nat, z: seq<nat>): Constraint {
    Constraint(SepLabel(u, v, i, c), [Var(u, c), Var(v, c)], SeparatorVars(z, c), 1)
  }

  /** The separator a key refers to (empty for a key the loops never produce). */
  function SeparatorOf(seps: SeparatorOracle, key: SepKey): seq<nat> {
    var zs := seps(key.u, key.v);
    if key.idx < |zs| then zs[key.idx] else []
  }

  /** The constraint of a key; the printed separator index is idx + labelOffset. */
  function SepConstraint(key: SepKey, seps: SeparatorOracle, labelOffset: nat): Constraint {
    SepConstraintFor(key.u, key.v, key.idx + labelOffset, key.c, SeparatorOf(seps, key))
  }

  function SepConstraintsOf(keys: seq<SepKey>, seps: SeparatorOracle, labelOffset: nat): seq<Constraint> {
    seq(|keys|, i requires 0 <= i < |keys| => SepConstraint(keys[i], seps, labelOffset))
  }

  /**
   * The constraint emitted for key (u, v, idx, c) is labelled
   * "(u,v)-SEP_#" + str(idx + labelOffset) + "_c" + str(c) and reads
   * x[u, c] + x[v, c] - x[z, c] for each z of separator idx of (u, v), in order, <= 1.
   */
  lemma SepConstraintsShape(g: Graph, seps: SeparatorOracle, k: int, labelOffset: nat)
    ensures |SepConstraintsOf(SepKeys(g, seps, k), seps, labelOffset)| == |SepKeys(g, seps, k)|
    ensures forall i :: 0 <= i < |SepKeys(g, seps, k)| ==>
      var key := SepKeys(g, seps, k)[i];
      var con := SepConstraintsOf(SepKeys(g, seps, k), seps, labelOffset)[i];
      key.idx < |seps(key.u, key.v)| &&
      var z := seps(key.u, key.v)[key.idx];
      con.name == "(" + NatStr(key.u) + "," + NatStr(key.v) + ")-SEP_#" + NatStr(key.idx + labelOffset) + "_c" + NatStr(key.c) &&
      con.plus == [Var(key.u, key.c), Var(key.v, key.c)] &&
      |con.minus| == |z| && (forall j :: 0 <= j < |z| ==> con.minus[j] == Var(z[j], key.c)) &&
      con.rhs == 1
  {
    var keys := SepKeys(g, seps, k);
    forall i | 0 <= i < |keys| ensures keys[i].idx < |seps(keys[i].u, keys[i].v)| {
      SepKeysMembership(g, seps, k, keys[i]);
    }
  }

  /** The whole model built for graph g, oracle seps and k colours. */
  function Build(g: Graph, seps: SeparatorOracle, k: int, labelOffset: nat): Model
    requires g.n == 0 || k >= 1
  {
    Model(ObjectiveTerms(g.n, k),
          GubConstraints(g.n, k) + SepConstraintsOf(SepKeys(g, seps, k), seps, labelOffset),
          BinaryVars(g.n, k))
  }

  // -------------------------------------------------------------------- labels

  /** Reads a GUB label back into its vertex. */
  function ParseGubLabel(s: string): Option<nat> {
    var r :- Expect("GUB", s);
    var a :- ReadNat(r);
    if a.1 == [] then Some(a.0) else None
  }

  /** Reads a separator label back into (u, v, printed index, colour). */
  function ParseSepLabel(s: string): Option<(nat, nat, nat, nat)> {
    var r0 :- Expect("(", s);
    var a :- ReadNat(r0);
    var r1 :- Expect(",", a.1);
    var b :- ReadNat(r1);
    var r2 :- Expect(")-SEP_#", b.1);
    var d :- ReadNat(r2);
    var r3 :- Expect("_c", d.1);
    var e :- ReadNat(r3);
    if e.1 == [] then Some((a.0, b.0, d.0, e.0)) else None
  }

  lemma ParseGubLabelOfGubLabel(u: nat)
    ensures ParseGubLabel(GubLabel(u)) == Some(u)
  {
    ExpectOf("GUB", NatStr(u));
    ReadNatOfNatStr(u, []);
    assert NatStr(u) + [] == NatStr(u);
  }

  lemma ParseSepLabelOfSepLabel(u: nat, v: nat, i: nat, c: nat)
    ensures ParseSepLabel(SepLabel(u, v, i, c)) == Some((u, v, i, c))
  {
    var r3 := NatStr(c);
    var r2 := NatStr(i) + ("_c" + r3);
    var r1 := NatStr(v) + (")-SEP_#" + r2);
    var r0 := NatStr(u) + ("," + r1);
    assert Expect("(", SepLabel(u, v, i, c)) == Some(r0) by {
      assert SepLabel(u, v, i, c) == "(" + r0;
      ExpectOf("(", r0);
    }
    assert ReadNat(r0) == Some((u, "," + r1)) by {
      ReadNatOfNatStr(u, "," + r1);
    }
    assert Expect(",", "," + r1) == Some(r1) by {
      ExpectOf(",", r1);
    }
    assert ReadNat(r1) == Some((v, ")-SEP_#" + r2)) by {
      ReadNatOfNatStr(v, ")-SEP_#" + r2);
    }
    assert Expect(")-SEP_#", ")-SEP_#" + r2) == Some(r2) by {
      ExpectOf(")-SEP_#", r2);
    }
    assert ReadNat(r2) == Some((i, "_c" + r3)) by {
      ReadNatOfNatStr(i, "_c" + r3);
    }
    assert Expect("_c", "_c" + r3) == Some(r3) by {
      ExpectOf("_c", r3);
    }
    assert ReadNat(r3) == Some((c, [])) by {
      ReadNatOfNatStr(c, []);
      assert NatStr(c) + [] == NatStr(c);
    }
  }

  lemma GubLabelInjective(u: nat, u': nat)
    ensures GubLabel(u) == GubLabel(u') ==> u == u'
  {
    ParseGubLabelOfGubLabel(u);
    ParseGubLabelOfGubLabel(u');
  }

  lemma GubLabelsDistinct(n: nat, k: int)
    ensures NamesDistinct(GubConstraints(n, k))
  {
    forall i, j | 0 <= i < j < n ensures GubConstraints(n, k)[i].name != GubConstraints(n, k)[j].name {
      GubLabelInjective(i + 1, j + 1);
    }
  }

  lemma SepLabelInjective(u: nat, v: nat, i: nat, c: nat, u': nat, v': nat, i': nat, c': nat)
    ensures SepLabel(u, v, i, c) == SepLabel(u', v', i', c') ==> u == u' && v == v' && i == i' && c == c'
  {
    ParseSepLabelOfSepLabel(u, v, i, c);
    ParseSepLabelOfSepLabel(u', v', i', c');
  }

  lemma SepLabelsDistinct(keys: seq<SepKey>, seps: SeparatorOracle, labelOffset: nat)
    requires Increasing(keys)
    ensures NamesDistinct(SepConstraintsOf(keys, seps, labelOffset))
  {
    var cs := SepConstraintsOf(keys, seps, labelOffset);
    forall i, j | 0 <= i < j < |keys| ensures cs[i].name != cs[j].name {
      var a, b := keys[i], keys[j];
      assert KeyLess(a, b);
      SepLabelInjective(a.u, a.v, a.idx + labelOffset, a.c, b.u, b.v, b.idx + labelOffset, b.c);
    }
  }

  lemma GubAndSepLabelsDiffer(u: nat, key: SepKey, seps: SeparatorOracle, labelOffset: nat)
    ensures GubLabel(u) != SepConstraint(key, seps, labelOffset).name
  {
    assert GubLabel(u)[0] == 'G';
    assert SepConstraint(key, seps, labelOffset).name[0] == '(';
  }

  predicate NamesDistinct(cs: seq<Constraint>) {
    forall i, j :: 0 <= i < j < |cs| ==> cs[i].name != cs[j].name
  }

  lemma NamesDistinctConcat(a: seq<Constraint>, b: seq<Constraint>)
    requires NamesDistinct(a) && NamesDistinct(b)
    requires forall i, j :: 0 <= i < |a| && 0 <= j < |b| ==> a[i].name != b[j].name
    ensures NamesDistinct(a + b)
  {
    forall i, j | 0 <= i < j < |a + b| ensures (a + b)[i].name != (a + b)[j].name {
      if j < |a| {
        assert (a + b)[i] == a[i] && (a + b)[j] == a[j];
      } else if i < |a| {
        assert (a + b)[i] == a[i] && (a + b)[j] == b[j - |a|];
      } else {
        assert (a + b)[i] == b[i - |a|] && (a + b)[j] == b[j - |a|];
      }
    }
  }

  /** No two constraints of one model share a label. */
  lemma ConstraintLabelsDistinct(g: Graph, seps: SeparatorOracle, k: int, labelOffset: nat)
    requires g.n == 0 || k >= 1
    ensures NamesDistinct(Build(g, seps, k, labelOffset).constraints)
  {
    var gubs := GubConstraints(g.n, k);
    var keys := SepKeys(g, seps, k);
    var sc := SepConstraintsOf(keys, seps, labelOffset);
    SepKeysIncreasing(g, seps, k);
    GubLabelsDistinct(g.n, k);
    SepLabelsDistinct(keys, seps, labelOffset);
    forall i, j | 0 <= i < |gubs| && 0 <= j < |sc| ensures gubs[i].name != sc[j].name {
      GubAndSepLabelsDiffer(i + 1, keys[j], seps, labelOffset);
    }
    NamesDistinctConcat(gubs, sc);
  }
}
