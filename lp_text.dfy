/**
 * The text of an LP file in the dialect get_ilp_formulation writes: variable
 * names, constraint lines, the objective and the Binaries list.
 */
module LpText {
  import opened Wrappers
  import opened Decimal
  import opened LpModel

  /** The name `vars[(u, c)]` of x[u, c]: " x" + str(u) + "," + str(c) + " ". */
  function VarName(x: Var): string {
    " x" + NatStr(x.vertex) + "," + NatStr(x.colour) + " "
  }

  /** Reads a variable name back into the variable. */
  function ParseVarName(s: string): Option<Var> {
    var r0 :- Expect(" x", s);
    var a :- ReadNat(r0);
    var r1 :- Expect(",", a.1);
    var b :- ReadNat(r1);
    var r2 :- Expect(" ", b.1);
    if r2 == [] then Some(Var(a.0, b.0)) else None
  }

  lemma ParseVarNameOfVarName(x: Var)
    ensures ParseVarName(VarName(x)) == Some(x)
  {
    var r1 := NatStr(x.colour) + " ";
    var r0 := NatStr(x.vertex) + ("," + r1);
    assert Expect(" x", VarName(x)) == Some(r0) by {
      assert VarName(x) == " x" + r0;
      ExpectOf(" x", r0);
    }
    assert ReadNat(r0) == Some((x.vertex, "," + r1)) by {
      ReadNatOfNatStr(x.vertex, "," + r1);
    }
    assert Expect(",", "," + r1) == Some(r1) by {
      ExpectOf(",", r1);
    }
    assert ReadNat(r1) == Some((x.colour, " ")) by {
      ReadNatOfNatStr(x.colour, " ");
    }
    assert Expect(" ", " ") == Some([]) by {
      ExpectOf(" ", []);
      assert " " + [] == " ";
    }
  }

  /** Distinct (u, c) pairs get distinct names. */
  lemma VarNameInjective(x: Var, y: Var)
    ensures VarName(x) == VarName(y) ==> x == y
  {
    ParseVarNameOfVarName(x);
    ParseVarNameOfVarName(y);
  }

  function Names(xs: seq<Var>): seq<string> {
    seq(|xs|, i requires 0 <= i < |xs| => VarName(xs[i]))
  }

  /** The names of xs joined with "+". */
  function PlusText(xs: seq<Var>): string {
    Join("+", Names(xs))
  }

  /** "-" + name, for each variable of xs. */
  function MinusText(xs: seq<Var>): string {
    Concat(seq(|xs|, i requires 0 <= i < |xs| => "-" + VarName(xs[i])))
  }

  /** The names of xs, one after the other. */
  function VarsText(xs: seq<Var>): string {
    Concat(Names(xs))
  }

  /** One constraint line: name: plus-terms minus-terms <= rhs. */
  function Render(con: Constraint): string {
    con.name + ":" + PlusText(con.plus) + MinusText(con.minus) + "<= " + NatStr(con.rhs) + "\n"
  }

  function Lines(cs: seq<Constraint>): seq<string> {
    seq(|cs|, i requires 0 <= i < |cs| => Render(cs[i]))
  }

  function RenderAll(cs: seq<Constraint>): string {
    Concat(Lines(cs))
  }

  function RenderSepKeys(keys: seq<SepKey>, seps: SeparatorOracle, labelOffset: nat): string {
    RenderAll(SepConstraintsOf(keys, seps, labelOffset))
  }

  function TermText(t: Term): string {
    NatStr(t.coef) + VarName(t.x)
  }

  function TermTexts(ts: seq<Term>): seq<string> {
    seq(|ts|, i requires 0 <= i < |ts| => TermText(ts[i]))
  }

  /** "Maximize", then the terms joined with "+ ", then "\n" after the last term if asked. */
  function RenderObjective(ts: seq<Term>, newlineAtEnd: bool): string {
    "Maximize\n  " + Join("+ ", TermTexts(ts)) + (if newlineAtEnd && |ts| > 0 then "\n" else "")
  }

  function RenderConstraints(cs: seq<Constraint>): string {
    "Subject To\n" + RenderAll(cs)
  }

  function RenderBinaries(xs: seq<Var>): string {
    "Binaries\n" + VarsText(xs) + "\n"
  }

  lemma RenderAllAppend(a: seq<Constraint>, b: seq<Constraint>)
    ensures RenderAll(a + b) == RenderAll(a) + RenderAll(b)
  {
    assert Lines(a + b) == Lines(a) + Lines(b);
    ConcatAppend(Lines(a), Lines(b));
  }

  lemma VarsTextAppend(a: seq<Var>, b: seq<Var>)
    ensures VarsText(a + b) == VarsText(a) + VarsText(b)
  {
    assert Names(a + b) == Names(a) + Names(b);
    ConcatAppend(Names(a), Names(b));
  }

  lemma RenderSepKeysAppend(a: seq<SepKey>, b: seq<SepKey>, seps: SeparatorOracle, labelOffset: nat)
    ensures RenderSepKeys(a + b, seps, labelOffset) == RenderSepKeys(a, seps, labelOffset) + RenderSepKeys(b, seps, labelOffset)
  {
    var ca, cb := SepConstraintsOf(a, seps, labelOffset), SepConstraintsOf(b, seps, labelOffset);
    var cab := SepConstraintsOf(a + b, seps, labelOffset);
    forall i | 0 <= i < |cab| ensures cab[i] == (ca + cb)[i] {
      if i < |a| {
        assert (a + b)[i] == a[i];
      } else {
        assert (a + b)[i] == b[i - |a|];
      }
    }
    assert cab == ca + cb;
    RenderAllAppend(ca, cb);
  }

  lemma RenderAllSnoc(cs: seq<Constraint>, con: Constraint)
    ensures RenderAll(cs + [con]) == RenderAll(cs) + Render(con)
  {
    assert Lines(cs + [con]) == Lines(cs) + [Render(con)];
    ConcatSnoc(Lines(cs), Render(con));
  }

  lemma RenderSepKeysSnoc(keys: seq<SepKey>, key: SepKey, seps: SeparatorOracle, labelOffset: nat)
    ensures RenderSepKeys(keys + [key], seps, labelOffset)
         == RenderSepKeys(keys, seps, labelOffset) + Render(SepConstraint(key, seps, labelOffset))
  {
    assert SepConstraintsOf(keys + [key], seps, labelOffset)
        == SepConstraintsOf(keys, seps, labelOffset) + [SepConstraint(key, seps, labelOffset)];
    RenderAllSnoc(SepConstraintsOf(keys, seps, labelOffset), SepConstraint(key, seps, labelOffset));
  }

  lemma VarsTextSnoc(xs: seq<Var>, x: Var)
    ensures VarsText(xs + [x]) == VarsText(xs) + VarName(x)
  {
    assert Names(xs + [x]) == Names(xs) + [VarName(x)];
    ConcatSnoc(Names(xs), VarName(x));
  }

  lemma MinusTextSnoc(xs: seq<Var>, x: Var)
    ensures MinusText(xs + [x]) == MinusText(xs) + ("-" + VarName(x))
  {
    assert seq(|xs + [x]|, i requires 0 <= i < |xs + [x]| => "-" + VarName((xs + [x])[i]))
        == seq(|xs|, i requires 0 <= i < |xs| => "-" + VarName(xs[i])) + ["-" + VarName(x)];
    ConcatSnoc(seq(|xs|, i requires 0 <= i < |xs| => "-" + VarName(xs[i])), "-" + VarName(x));
  }

  lemma PlusTextSnoc(xs: seq<Var>, x: Var)
    ensures PlusText(xs + [x]) == if xs == [] then VarName(x) else PlusText(xs) + "+" + VarName(x)
  {
    assert Names(xs + [x]) == Names(xs) + [VarName(x)];
    JoinSnoc("+", Names(xs), VarName(x));
  }

  lemma OneText()
    ensures NatStr(1) == "1"
  {
  }
}
