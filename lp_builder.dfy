/**
 * The loops of get_ilp_formulation, shared by both copies of it: each method
 * builds one part of the text with `+=` exactly as the loop does, and its
 * postcondition says which part of the structured model it has rendered.
 */
module LpBuilder {
  import opened Wrappers
  import opened Decimal
  import opened LpModel
  import opened LpText

  type VarTable = map<(int, int), string>

  /** `vars` maps exactly the pairs (u, c) with 1 <= u <= n, 1 <= c <= k, each to its name. */
  ghost predicate IsVarTable(vars: VarTable, n: nat, k: int) {
    (forall p :: p in vars ==> 1 <= p.0 <= n && 1 <= p.1 <= k && vars[p] == VarName(Var(p.0, p.1))) &&
    (forall u, c :: 1 <= u <= n && 1 <= c <= k ==> (u, c) in vars)
  }

  /** The `vars` dictionary filled by the first double loop. */
  method VariableTable(n: nat, k: int) returns (vars: VarTable)
    ensures IsVarTable(vars, n, k)
  {
    vars := map[];
    var u := 1;
    while u <= n
      invariant 1 <= u <= n + 1
      invariant forall p :: p in vars ==> 1 <= p.0 < u && 1 <= p.1 <= k && vars[p] == VarName(Var(p.0, p.1))
      invariant forall u', c :: 1 <= u' < u && 1 <= c <= k ==> (u', c) in vars
    {
      var c := 1;
      while c <= k
        invariant 1 <= c <= Colours(k) + 1
        invariant forall p :: p in vars ==>
          1 <= p.0 <= u && 1 <= p.1 <= k && (p.0 == u ==> p.1 < c) && vars[p] == VarName(Var(p.0, p.1))
        invariant forall u', c' :: 1 <= u' <= u && 1 <= c' <= k && (u' == u ==> c' < c) ==> (u', c') in vars
      {
        vars := vars[(u, c) := VarName(Var(u, c))];
        c := c + 1;
      }
      u := u + 1;
    }
  }

  lemma AppendAssoc(a: string, b: string, c: string)
    ensures a + b + c == a + (b + c)
  {
  }

  /** The objective text after the loop has handled vertices 1..m. */
  ghost function ObjectiveAfter(m: nat, n: nat, k: int, newlineAtEnd: bool): string
    requires m == 0 || k >= 1
  {
    "Maximize\n  " + Join("+ ", TermTexts(ObjectiveTerms(m, k))) +
    (if m == 0 then "" else if m < n then "+ " else if newlineAtEnd then "\n" else "")
  }

  lemma ObjectiveTermsSnoc(m: nat, k: int)
    requires 1 <= m && k >= 1
    ensures TermTexts(ObjectiveTerms(m, k)) == TermTexts(ObjectiveTerms(m - 1, k)) + [TermText(ObjectiveTerm(m, k))]
  {
    assert ObjectiveTerms(m, k) == ObjectiveTerms(m - 1, k) + [ObjectiveTerm(m, k)];
  }

  lemma JoinedStep(head: string, sep: string, ts: seq<string>, t: string, mid: string, tail: string)
    requires mid == if ts == [] then "" else sep
    ensures head + Join(sep, ts + [t]) + tail == head + Join(sep, ts) + mid + t + tail
  {
    JoinSnoc(sep, ts, t);
    if ts == [] {
      assert Join(sep, ts) == "";
    } else {
      AppendAssoc(head, Join(sep, ts) + sep, t);
      AppendAssoc(head, Join(sep, ts), sep);
    }
  }

  lemma ObjectiveAfterStep(m: nat, n: nat, k: int, newlineAtEnd: bool)
    requires 1 <= m <= n && k >= 1
    ensures ObjectiveAfter(m, n, k, newlineAtEnd)
         == ObjectiveAfter(m - 1, n, k, newlineAtEnd) + TermText(ObjectiveTerm(m, k)) +
            (if m < n then "+ " else if newlineAtEnd then "\n" else "")
  {
    var ts := TermTexts(ObjectiveTerms(m - 1, k));
    assert |ts| == m - 1;
    ObjectiveTermsSnoc(m, k);
    JoinedStep("Maximize\n  ", "+ ", ts, TermText(ObjectiveTerm(m, k)), if m - 1 == 0 then "" else "+ ",
               if m < n then "+ " else if newlineAtEnd then "\n" else "");
  }

  /** The vertex's variable exists exactly when k >= 1 (for k < 0 no variable was created). */
  lemma ObjectiveLookup(vars: VarTable, n: nat, k: int, u: nat, colour: int)
    requires IsVarTable(vars, n, k)
    requires 1 <= u <= n && k != 0 && colour == PyMod(u - 1, k) + 1
    ensures (u, colour) in vars <==> k >= 1
    ensures (u, colour) in vars ==> vars[(u, colour)] == VarName(Var(u, colour))
  {
  }

  lemma ObjectiveTermText(u: nat, k: int, colour: int)
    requires u >= 1 && k >= 1 && colour == PyMod(u - 1, k) + 1
    ensures colour >= 1 && u * colour >= 0
    ensures TermText(ObjectiveTerm(u, k)) == NatStr(u * colour) + VarName(Var(u, colour))
  {
  }

  lemma ObjectiveAfterAll(n: nat, k: int, newlineAtEnd: bool)
    requires n == 0 || k >= 1
    ensures ObjectiveAfter(n, n, k, newlineAtEnd) == RenderObjective(ObjectiveTerms(n, k), newlineAtEnd)
  {
  }

  /**
   * The objective loop. It fails as Python does when n >= 1 and k < 1: with a
   * ZeroDivisionError for k == 0, with a KeyError for k < 0 (no variable has
   * been created); otherwise it renders the objective terms.
   */
  method ObjectiveSection(n: nat, k: int, vars: VarTable, newlineAtEnd: bool) returns (r: Result<string, PyError>)
    requires IsVarTable(vars, n, k)
    ensures r.Failure? <==> n >= 1 && k < 1
    ensures r.Failure? ==> r.error == if k == 0 then ZeroDivisionError else KeyError
    ensures r.Success? ==> r.value == RenderObjective(ObjectiveTerms(n, k), newlineAtEnd)
  {
    var objective := "Maximize\n  ";
    var u := 1;
    while u <= n
      invariant 1 <= u <= n + 1
      invariant u > 1 ==> k >= 1
      invariant objective == ObjectiveAfter(u - 1, n, k, newlineAtEnd)
    {
      if k == 0 {
        return Failure(ZeroDivisionError);
      }
      var colour := PyMod(u - 1, k) + 1;
      if (u, colour) !in vars {
        ObjectiveLookup(vars, n, k, u, colour);
        return Failure(KeyError);
      }
      ObjectiveLookup(vars, n, k, u, colour);
      ObjectiveTermText(u, k, colour);
      ghost var before := objective;
      objective := objective + NatStr(u * colour);
      objective := objective + vars[(u, colour)];
      AppendAssoc(before, NatStr(u * colour), vars[(u, colour)]);
      objective := objective + (if u < n then "+ " else if newlineAtEnd then "\n" else "");
      ObjectiveAfterStep(u, n, k, newlineAtEnd);
      u := u + 1;
    }
    assert u - 1 == n;
    ObjectiveAfterAll(n, k, newlineAtEnd);
    r := Success(objective);
  }

  /** GUBu as the inner loop has written it after colours 1..m. */
  ghost function GubAfter(u: nat, m: nat, k: int): string
    requires m <= Colours(k)
  {
    "GUB" + NatStr(u) + ":" + PlusText(ColourVars(u, k)[..m]) + (if 0 < m < k then "+" else "")
  }

  lemma GubAfterStart(before: string, u: nat, k: int)
    ensures before + "GUB" + NatStr(u) + ":" == before + GubAfter(u, 0, k)
  {
    assert ColourVars(u, k)[..0] == [];
    assert PlusText([]) == "";
  }

  lemma PlusRegroup(before: string, h: string, p: string, name: string, tr: string)
    ensures before + (h + p + "+") + name + tr == before + (h + (p + "+" + name) + tr)
  {
  }

  lemma GubAfterStep(before: string, u: nat, m: nat, k: int)
    requires 1 <= m <= Colours(k)
    ensures before + GubAfter(u, m - 1, k) + VarName(Var(u, m)) + (if m < k then "+" else "")
         == before + GubAfter(u, m, k)
  {
    var xs, x := ColourVars(u, k)[..m - 1], Var(u, m);
    var h := "GUB" + NatStr(u) + ":";
    var tr := if m < k then "+" else "";
    assert PlusText(ColourVars(u, k)[..m]) == if xs == [] then VarName(x) else PlusText(xs) + "+" + VarName(x) by {
      assert ColourVars(u, k)[..m] == xs + [x];
      PlusTextSnoc(xs, x);
    }
    if m == 1 {
      assert GubAfter(u, m - 1, k) == h by {
        assert xs == [];
        assert PlusText([]) == "";
      }
      assert GubAfter(u, m, k) == h + VarName(x) + tr;
      AppendAssoc(before, h, VarName(x));
      AppendAssoc(before, h + VarName(x), tr);
    } else {
      assert GubAfter(u, m - 1, k) == h + PlusText(xs) + "+";
      assert GubAfter(u, m, k) == h + (PlusText(xs) + "+" + VarName(x)) + tr;
      PlusRegroup(before, h, PlusText(xs), VarName(x), tr);
    }
  }

  lemma GubRender(u: nat, k: int)
    ensures GubAfter(u, Colours(k), k) + "<= 1\n" == Render(Gub(u, k))
  {
    assert ColourVars(u, k)[..Colours(k)] == ColourVars(u, k);
    OneText();
    assert MinusText([]) == "";
  }

  lemma GubConstraintsStep(text: string, before: string, body: string, u: nat, k: int)
    requires u >= 1
    requires before == text + RenderAll(GubConstraints(u - 1, k))
    requires body == before + Render(Gub(u, k))
    ensures body == text + RenderAll(GubConstraints(u, k))
  {
    assert GubConstraints(u, k) == GubConstraints(u - 1, k) + [Gub(u, k)];
    RenderAllSnoc(GubConstraints(u - 1, k), Gub(u, k));
    AppendAssoc(text, RenderAll(GubConstraints(u - 1, k)), Render(Gub(u, k)));
  }

  /** One pass of the GUB loop: "GUB" + str(u) + ":", the names of x[u, 1..k] joined by "+", "<= 1". */
  method AppendGubConstraint(text: string, n: nat, k: int, vars: VarTable, u: nat) returns (t: string)
    requires IsVarTable(vars, n, k)
    requires 1 <= u <= n
    ensures t == text + Render(Gub(u, k))
  {
    t := text + "GUB" + NatStr(u) + ":";
    GubAfterStart(text, u, k);
    var c := 1;
    while c <= k
      invariant 1 <= c <= Colours(k) + 1
      invariant t == text + GubAfter(u, c - 1, k)
    {
      ghost var prev := t;
      t := t + vars[(u, c)];
      if c < k {
        t := t + "+";
      }
      assert t == prev + VarName(Var(u, c)) + (if c < k then "+" else "");
      GubAfterStep(text, u, c, k);
      c := c + 1;
    }
    assert c - 1 == Colours(k);
    t := t + "<= 1\n";
    GubRender(u, k);
    AppendAssoc(text, GubAfter(u, Colours(k), k), "<= 1\n");
  }

  /** The GUB loop: appends GUB1..GUBn. */
  method AppendGubConstraints(text: string, n: nat, k: int, vars: VarTable) returns (t: string)
    requires IsVarTable(vars, n, k)
    ensures t == text + RenderAll(GubConstraints(n, k))
  {
    t := text;
    var u := 1;
    while u <= n
      invariant 1 <= u <= n + 1
      invariant t == text + RenderAll(GubConstraints(u - 1, k))
    {
      ghost var before := t;
      t := AppendGubConstraint(t, n, k, vars, u);
      GubConstraintsStep(text, before, t, u, k);
      u := u + 1;
    }
    assert u - 1 == n;
  }

  /** A separator constraint as the label, plus-term and z loop have written it after m vertices of z. */
  ghost function SepAfter(u: nat, v: nat, i: nat, c: nat, z: seq<nat>, m: nat): string
    requires m <= |z|
  {
    SepLabel(u, v, i, c) + ":" + PlusText([Var(u, c), Var(v, c)]) + MinusText(SeparatorVars(z, c)[..m])
  }

  lemma Regroup(text: string, a: string, b: string, p: string)
    ensures text + a + (b + ":") + p == text + (a + b + ":" + p)
  {
  }

  lemma SepAfterStart(text: string, u: nat, v: nat, i: nat, c: nat, z: seq<nat>)
    ensures text + ("(" + NatStr(u) + "," + NatStr(v) + ")-SEP_") + ("#" + NatStr(i) + "_c" + NatStr(c) + ":")
              + (VarName(Var(u, c)) + "+" + VarName(Var(v, c)))
         == text + SepAfter(u, v, i, c, z, 0)
  {
    var plus := [Var(u, c), Var(v, c)];
    PlusTextSnoc([Var(u, c)], Var(v, c));
    PlusTextSnoc([], Var(u, c));
    assert [Var(u, c)] + [Var(v, c)] == plus;
    assert [] + [Var(u, c)] == [Var(u, c)];
    assert PlusText(plus) == VarName(Var(u, c)) + "+" + VarName(Var(v, c));
    assert SeparatorVars(z, c)[..0] == [];
    assert MinusText([]) == "";
    Regroup(text, "(" + NatStr(u) + "," + NatStr(v) + ")-SEP_", "#" + NatStr(i) + "_c" + NatStr(c), PlusText(plus));
  }

  lemma SepAfterStep(before: string, u: nat, v: nat, i: nat, c: nat, z: seq<nat>, m: nat)
    requires 1 <= m <= |z|
    ensures before + SepAfter(u, v, i, c, z, m - 1) + ("-" + VarName(Var(z[m - 1], c)))
         == before + SepAfter(u, v, i, c, z, m)
  {
    assert SeparatorVars(z, c)[..m] == SeparatorVars(z, c)[..m - 1] + [Var(z[m - 1], c)];
    MinusTextSnoc(SeparatorVars(z, c)[..m - 1], Var(z[m - 1], c));
  }

  lemma SepAfterAll(before: string, body: string, u: nat, v: nat, i: nat, c: nat, z: seq<nat>)
    requires body == before + SepAfter(u, v, i, c, z, |z|)
    ensures body + "<= 1\n" == before + Render(SepConstraintFor(u, v, i, c, z))
  {
    assert SeparatorVars(z, c)[..|z|] == SeparatorVars(z, c);
    OneText();
    AppendAssoc(before, SepAfter(u, v, i, c, z, |z|), "<= 1\n");
  }

  /** The body of the colour loop: one separator constraint for vertices u, v, separator z, printed index i. */
  method AppendSeparatorConstraint(text: string, n: nat, k: int, vars: VarTable, u: nat, v: nat, i: nat, c: nat, z: seq<nat>)
    returns (t: string)
    requires IsVarTable(vars, n, k)
    requires 1 <= u <= n && 1 <= v <= n && 1 <= c <= k
    requires forall j :: 0 <= j < |z| ==> 1 <= z[j] <= n
    ensures t == text + Render(SepConstraintFor(u, v, i, c, z))
  {
    t := text + ("(" + NatStr(u) + "," + NatStr(v) + ")-SEP_");
    t := t + ("#" + NatStr(i) + "_c" + NatStr(c) + ":");
    t := t + (vars[(u, c)] + "+" + vars[(v, c)]);
    SepAfterStart(text, u, v, i, c, z);
    var j := 0;
    while j < |z|
      invariant 0 <= j <= |z|
      invariant t == text + SepAfter(u, v, i, c, z, j)
    {
      t := t + ("-" + vars[(z[j], c)]);
      SepAfterStep(text, u, v, i, c, z, j + 1);
      j := j + 1;
    }
    assert j == |z|;
    ghost var body := t;
    t := t + "<= 1\n";
    SepAfterAll(text, body, u, v, i, c, z);
  }

  lemma RenderSepKeysStep(text: string, before: string, body: string, prefix: seq<SepKey>, key: SepKey,
                          seps: SeparatorOracle, labelOffset: nat)
    requires before == text + RenderSepKeys(prefix, seps, labelOffset)
    requires body == before + Render(SepConstraint(key, seps, labelOffset))
    ensures body == text + RenderSepKeys(prefix + [key], seps, labelOffset)
  {
    RenderSepKeysSnoc(prefix, key, seps, labelOffset);
    AppendAssoc(text, RenderSepKeys(prefix, seps, labelOffset), Render(SepConstraint(key, seps, labelOffset)));
  }

  lemma ColourKeysTake(u: nat, v: nat, idx: nat, k: int, c: nat)
    requires 1 <= c <= Colours(k)
    ensures ColourKeys(u, v, idx, k)[..c] == ColourKeys(u, v, idx, k)[..c - 1] + [SepKey(u, v, idx, c)]
  {
    var keys := ColourKeys(u, v, idx, k);
    assert keys[c - 1] == SepKey(u, v, idx, c);
  }

  lemma SepConstraintOfKey(u: nat, v: nat, idx: nat, c: nat, seps: SeparatorOracle, labelOffset: nat)
    requires idx < |seps(u, v)|
    ensures SepConstraint(SepKey(u, v, idx, c), seps, labelOffset) == SepConstraintFor(u, v, idx + labelOffset, c, seps(u, v)[idx])
  {
  }

  lemma ColourKeysStep(text: string, before: string, body: string, u: nat, v: nat, idx: nat, k: int, c: nat,
                       seps: SeparatorOracle, labelOffset: nat)
    requires 1 <= c <= Colours(k) && idx < |seps(u, v)|
    requires before == text + RenderSepKeys(ColourKeys(u, v, idx, k)[..c - 1], seps, labelOffset)
    requires body == before + Render(SepConstraintFor(u, v, idx + labelOffset, c, seps(u, v)[idx]))
    ensures body == text + RenderSepKeys(ColourKeys(u, v, idx, k)[..c], seps, labelOffset)
  {
    SepConstraintOfKey(u, v, idx, c, seps, labelOffset);
    RenderSepKeysStep(text, before, body, ColourKeys(u, v, idx, k)[..c - 1], SepKey(u, v, idx, c), seps, labelOffset);
    ColourKeysTake(u, v, idx, k, c);
  }

  lemma PairKeysStep(text: string, before: string, body: string, u: nat, v: nat, idx: nat, k: int, seps: SeparatorOracle, labelOffset: nat)
    requires before == text + RenderSepKeys(PairKeys(u, v, idx, k), seps, labelOffset)
    requires body == before + RenderSepKeys(ColourKeys(u, v, idx, k), seps, labelOffset)
    ensures body == text + RenderSepKeys(PairKeys(u, v, idx + 1, k), seps, labelOffset)
  {
    RenderSepKeysAppend(PairKeys(u, v, idx, k), ColourKeys(u, v, idx, k), seps, labelOffset);
    AppendAssoc(text, RenderSepKeys(PairKeys(u, v, idx, k), seps, labelOffset),
                RenderSepKeys(ColourKeys(u, v, idx, k), seps, labelOffset));
  }

  lemma SeparatorInRange(g: Graph, seps: SeparatorOracle, u: nat, v: nat, idx: nat)
    requires SeparatorsInRange(g, seps)
    requires 1 <= u < v <= g.n && !HasEdge(g, u, v) && idx < |seps(u, v)|
    ensures forall j :: 0 <= j < |seps(u, v)[idx]| ==> 1 <= seps(u, v)[idx][j] <= g.n
  {
  }

  lemma NothingRendered(text: string, keys: seq<SepKey>, seps: SeparatorOracle, labelOffset: nat)
    requires keys == []
    ensures text == text + RenderSepKeys(keys, seps, labelOffset)
  {
    assert RenderSepKeys(keys, seps, labelOffset) == "";
  }

  /** The colour loop for separator number idx (0-based) of the pair u < v. */
  method AppendColourConstraints(text: string, g: Graph, k: int, vars: VarTable, seps: SeparatorOracle, labelOffset: nat,
                                 u: nat, v: nat, idx: nat, z: seq<nat>)
    returns (t: string)
    requires IsVarTable(vars, g.n, k)
    requires 1 <= u < v <= g.n && idx < |seps(u, v)| && z == seps(u, v)[idx]
    requires forall j :: 0 <= j < |z| ==> 1 <= z[j] <= g.n
    ensures t == text + RenderSepKeys(ColourKeys(u, v, idx, k), seps, labelOffset)
  {
    var n := g.n;
    ghost var keys := ColourKeys(u, v, idx, k);
    t := text;
    NothingRendered(text, keys[..0], seps, labelOffset);
    var c := 1;
    while c <= k
      invariant 1 <= c <= |keys| + 1
      invariant t == text + RenderSepKeys(keys[..c - 1], seps, labelOffset)
    {
      ghost var before := t;
      t := AppendSeparatorConstraint(t, n, k, vars, u, v, idx + labelOffset, c, z);
      ColourKeysStep(text, before, t, u, v, idx, k, c, seps, labelOffset);
      c := c + 1;
    }
    assert keys[..c - 1] == keys;
  }

  /** The separator loop (`enumerate(separators)`) for one non-adjacent pair u < v. */
  method AppendPairConstraints(text: string, g: Graph, k: int, vars: VarTable, seps: SeparatorOracle, labelOffset: nat,
                               u: nat, v: nat, separators: seq<seq<nat>>)
    returns (t: string)
    requires IsVarTable(vars, g.n, k)
    requires SeparatorsInRange(g, seps)
    requires 1 <= u < v <= g.n && !HasEdge(g, u, v) && separators == seps(u, v)
    ensures t == text + RenderSepKeys(PairKeys(u, v, |separators|, k), seps, labelOffset)
  {
    t := text;
    NothingRendered(text, PairKeys(u, v, 0, k), seps, labelOffset);
    var idx := 0;
    while idx < |separators|
      invariant 0 <= idx <= |separators|
      invariant t == text + RenderSepKeys(PairKeys(u, v, idx, k), seps, labelOffset)
    {
      var z := separators[idx];
      SeparatorInRange(g, seps, u, v, idx);
      ghost var before := t;
      t := AppendColourConstraints(t, g, k, vars, seps, labelOffset, u, v, idx, z);
      PairKeysStep(text, before, t, u, v, idx, k, seps, labelOffset);
      idx := idx + 1;
    }
    assert idx == |separators|;
  }

  lemma RowKeysSkip(text: string, before: string, g: Graph, seps: SeparatorOracle, k: int, labelOffset: nat, u: nat, v: nat)
    requires u < v && HasEdge(g, u, v)
    requires before == text + RenderSepKeys(RowKeys(g, seps, k, u, v - 1), seps, labelOffset)
    ensures before == text + RenderSepKeys(RowKeys(g, seps, k, u, v), seps, labelOffset)
  {
    assert RowKeys(g, seps, k, u, v) == RowKeys(g, seps, k, u, v - 1) + [];
    assert RowKeys(g, seps, k, u, v - 1) + [] == RowKeys(g, seps, k, u, v - 1);
  }

  lemma RowKeysStep(text: string, before: string, body: string, g: Graph, seps: SeparatorOracle, k: int, labelOffset: nat,
                    u: nat, v: nat)
    requires u < v && !HasEdge(g, u, v)
    requires before == text + RenderSepKeys(RowKeys(g, seps, k, u, v - 1), seps, labelOffset)
    requires body == before + RenderSepKeys(PairKeys(u, v, |seps(u, v)|, k), seps, labelOffset)
    ensures body == text + RenderSepKeys(RowKeys(g, seps, k, u, v), seps, labelOffset)
  {
    var pair := PairKeys(u, v, |seps(u, v)|, k);
    assert RowKeys(g, seps, k, u, v) == RowKeys(g, seps, k, u, v - 1) + pair;
    RenderSepKeysAppend(RowKeys(g, seps, k, u, v - 1), pair, seps, labelOffset);
    AppendAssoc(text, RenderSepKeys(RowKeys(g, seps, k, u, v - 1), seps, labelOffset), RenderSepKeys(pair, seps, labelOffset));
  }

  lemma SepKeysUpToStep(text: string, before: string, body: string, g: Graph, seps: SeparatorOracle, k: int,
                        labelOffset: nat, u: nat)
    requires u >= 1
    requires before == text + RenderSepKeys(SepKeysUpTo(g, seps, k, u - 1), seps, labelOffset)
    requires body == before + RenderSepKeys(RowKeys(g, seps, k, u, g.n), seps, labelOffset)
    ensures body == text + RenderSepKeys(SepKeysUpTo(g, seps, k, u), seps, labelOffset)
  {
    RenderSepKeysAppend(SepKeysUpTo(g, seps, k, u - 1), RowKeys(g, seps, k, u, g.n), seps, labelOffset);
    AppendAssoc(text, RenderSepKeys(SepKeysUpTo(g, seps, k, u - 1), seps, labelOffset),
                RenderSepKeys(RowKeys(g, seps, k, u, g.n), seps, labelOffset));
  }

  /** The loop over v for one u: every non-adjacent pair u < v gets its separator constraints. */
  method AppendRowConstraints(text: string, g: Graph, k: int, vars: VarTable, seps: SeparatorOracle, labelOffset: nat,
                              u: nat)
    returns (t: string)
    requires IsVarTable(vars, g.n, k)
    requires SeparatorsInRange(g, seps)
    requires 1 <= u <= g.n
    ensures t == text + RenderSepKeys(RowKeys(g, seps, k, u, g.n), seps, labelOffset)
  {
    var n := g.n;
    t := text;
    NothingRendered(text, RowKeys(g, seps, k, u, u), seps, labelOffset);
    var v := u + 1;
    while v <= n
      invariant u + 1 <= v <= n + 1
      invariant t == text + RenderSepKeys(RowKeys(g, seps, k, u, v - 1), seps, labelOffset)
    {
      if !HasEdge(g, u, v) {
        var separators := seps(u, v);
        ghost var before := t;
        t := AppendPairConstraints(t, g, k, vars, seps, labelOffset, u, v, separators);
        RowKeysStep(text, before, t, g, seps, k, labelOffset, u, v);
      } else {
        RowKeysSkip(text, t, g, seps, k, labelOffset, u, v);
      }
      v := v + 1;
    }
    assert v - 1 == n;
  }

  /** The loops over u < v of the separator constraints. */
  method AppendSeparatorConstraints(text: string, g: Graph, k: int, vars: VarTable, seps: SeparatorOracle, labelOffset: nat)
    returns (t: string)
    requires IsVarTable(vars, g.n, k)
    requires SeparatorsInRange(g, seps)
    ensures t == text + RenderSepKeys(SepKeys(g, seps, k), seps, labelOffset)
  {
    t := text;
    NothingRendered(text, SepKeysUpTo(g, seps, k, 0), seps, labelOffset);
    var u := 1;
    while u <= g.n
      invariant 1 <= u <= g.n + 1
      invariant t == text + RenderSepKeys(SepKeysUpTo(g, seps, k, u - 1), seps, labelOffset)
    {
      ghost var before := t;
      t := AppendRowConstraints(t, g, k, vars, seps, labelOffset, u);
      SepKeysUpToStep(text, before, t, g, seps, k, labelOffset, u);
      u := u + 1;
    }
    assert u - 1 == g.n;
  }

  lemma ColourVarsTake(u: nat, k: int, c: nat)
    requires 1 <= c <= Colours(k)
    ensures ColourVars(u, k)[..c] == ColourVars(u, k)[..c - 1] + [Var(u, c)]
  {
    assert ColourVars(u, k)[c - 1] == Var(u, c);
  }

  lemma BinariesStep(text: string, before: string, body: string, u: nat, c: nat, k: int)
    requires 1 <= c <= Colours(k)
    requires before == text + VarsText(ColourVars(u, k)[..c - 1])
    requires body == before + VarName(Var(u, c))
    ensures body == text + VarsText(ColourVars(u, k)[..c])
  {
    ColourVarsTake(u, k, c);
    VarsTextSnoc(ColourVars(u, k)[..c - 1], Var(u, c));
    AppendAssoc(text, VarsText(ColourVars(u, k)[..c - 1]), VarName(Var(u, c)));
  }

  lemma BinariesRowStep(before: string, body: string, u: nat, k: int)
    requires u >= 1
    requires before == "Binaries\n" + VarsText(BinaryVars(u - 1, k))
    requires body == before + VarsText(ColourVars(u, k))
    ensures body == "Binaries\n" + VarsText(BinaryVars(u, k))
  {
    VarsTextAppend(BinaryVars(u - 1, k), ColourVars(u, k));
    AppendAssoc("Binaries\n", VarsText(BinaryVars(u - 1, k)), VarsText(ColourVars(u, k)));
  }

  /** The inner loop of the Binaries section: the names of x[u, 1..k]. */
  method AppendColourVariables(text: string, n: nat, k: int, vars: VarTable, u: nat) returns (t: string)
    requires IsVarTable(vars, n, k)
    requires 1 <= u <= n
    ensures t == text + VarsText(ColourVars(u, k))
  {
    ghost var xs := ColourVars(u, k);
    t := text;
    assert VarsText(xs[..0]) == "";
    var c := 1;
    while c <= k
      invariant 1 <= c <= |xs| + 1
      invariant t == text + VarsText(xs[..c - 1])
    {
      ghost var before := t;
      t := t + vars[(u, c)];
      BinariesStep(text, before, t, u, c, k);
      c := c + 1;
    }
    assert xs[..c - 1] == xs;
  }

  /** The Binaries section: every variable name, vertex-major, then a newline. */
  method BinariesSection(n: nat, k: int, vars: VarTable) returns (domain: string)
    requires IsVarTable(vars, n, k)
    ensures domain == RenderBinaries(BinaryVars(n, k))
  {
    domain := "Binaries\n";
    assert VarsText([]) == "";
    var u := 1;
    while u <= n
      invariant 1 <= u <= n + 1
      invariant domain == "Binaries\n" + VarsText(BinaryVars(u - 1, k))
    {
      ghost var before := domain;
      domain := AppendColourVariables(domain, n, k, vars, u);
      BinariesRowStep(before, domain, u, k);
      u := u + 1;
    }
    assert u - 1 == n;
    domain := domain + "\n";
  }

  /** The constraints section: "Subject To", the GUB constraints, then the separator constraints. */
  method ConstraintsSection(g: Graph, k: int, vars: VarTable, seps: SeparatorOracle, labelOffset: nat)
    returns (constraints: string)
    requires IsVarTable(vars, g.n, k)
    requires SeparatorsInRange(g, seps)
    ensures constraints == RenderConstraints(GubConstraints(g.n, k) + SepConstraintsOf(SepKeys(g, seps, k), seps, labelOffset))
  {
    constraints := "Subject To\n";
    constraints := AppendGubConstraints(constraints, g.n, k, vars);
    constraints := AppendSeparatorConstraints(constraints, g, k, vars, seps, labelOffset);
    RenderAllAppend(GubConstraints(g.n, k), SepConstraintsOf(SepKeys(g, seps, k), seps, labelOffset));
    AppendAssoc("Subject To\n", RenderAll(GubConstraints(g.n, k)), RenderSepKeys(SepKeys(g, seps, k), seps, labelOffset));
  }
}
