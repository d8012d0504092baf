/**
 * Decimal text of non-negative integers as Python's `str` writes it, a reader
 * for it, and Python's `"sep".join(parts)`.
 */
module Decimal {
  import opened Wrappers

  predicate IsDigit(ch: char) {
    '0' <= ch <= '9'
  }

  predicate IsDigits(s: string) {
    forall i :: 0 <= i < |s| ==> IsDigit(s[i])
  }

  function DigitChar(d: nat): char
    requires d < 10
  {
    ('0' as int + d) as char
  }

  function DigitValue(ch: char): nat
    requires IsDigit(ch)
  {
    ch as int - '0' as int
  }

  /** `str(n)` for a non-negative int: at least one digit and no leading zero. */
  function NatStr(n: nat): (s: string)
    ensures IsDigits(s)
    ensures |s| == 1 <==> n < 10
    ensures |s| >= 2 ==> s[0] != '0'
    decreases n
  {
    if n < 10 then [DigitChar(n)] else NatStr(n / 10) + [DigitChar(n % 10)]
  }

  /** The number a string of decimal digits denotes (most significant digit first). */
  function DecimalValue(s: string): nat
    requires IsDigits(s)
    decreases |s|
  {
    if s == [] then 0 else 10 * DecimalValue(s[..|s| - 1]) + DigitValue(s[|s| - 1])
  }

  lemma {:induction false} DecimalValueOfNatStr(n: nat)
    ensures DecimalValue(NatStr(n)) == n
    decreases n
  {
    var s := NatStr(n);
    if n >= 10 {
      assert s[..|s| - 1] == NatStr(n / 10);
      DecimalValueOfNatStr(n / 10);
    } else {
      assert s[..|s| - 1] == [];
    }
  }

  lemma NatStrInjective(a: nat, b: nat)
    ensures NatStr(a) == NatStr(b) ==> a == b
  {
    DecimalValueOfNatStr(a);
    DecimalValueOfNatStr(b);
  }

  /** The length of the run of digits that starts s. */
  function DigitRun(s: string): (r: nat)
    ensures r <= |s| && IsDigits(s[..r])
    ensures r < |s| ==> !IsDigit(s[r])
    decreases |s|
  {
    if s == [] || !IsDigit(s[0]) then 0 else 1 + DigitRun(s[1..])
  }

  /** Reads the decimal number at the front of s, together with what follows it. */
  function ReadNat(s: string): Option<(nat, string)> {
    var r := DigitRun(s);
    if r == 0 then None else Some((DecimalValue(s[..r]), s[r..]))
  }

  /** Strips the literal text `lit` from the front of s. */
  function Expect(lit: string, s: string): Option<string> {
    if |lit| <= |s| && s[..|lit|] == lit then Some(s[|lit|..]) else None
  }

  lemma ExpectOf(lit: string, rest: string)
    ensures Expect(lit, lit + rest) == Some(rest)
  {
    assert (lit + rest)[..|lit|] == lit;
    assert (lit + rest)[|lit|..] == rest;
  }

  lemma {:induction false} DigitRunOfDigitsThen(a: string, rest: string)
    requires IsDigits(a)
    requires rest == [] || !IsDigit(rest[0])
    ensures DigitRun(a + rest) == |a|
    decreases |a|
  {
    if a == [] {
      assert a + rest == rest;
    } else {
      assert (a + rest)[0] == a[0];
      assert (a + rest)[1..] == a[1..] + rest;
      DigitRunOfDigitsThen(a[1..], rest);
    }
  }

  /** Reading back `str(n)` gives n, and leaves what followed the digits. */
  lemma ReadNatOfNatStr(n: nat, rest: string)
    requires rest == [] || !IsDigit(rest[0])
    ensures ReadNat(NatStr(n) + rest) == Some((n, rest))
  {
    var s := NatStr(n) + rest;
    DigitRunOfDigitsThen(NatStr(n), rest);
    assert s[..|NatStr(n)|] == NatStr(n);
    assert s[|NatStr(n)|..] == rest;
    DecimalValueOfNatStr(n);
  }

  /** The parts, one after the other (what repeated `+=` accumulates). */
  function Concat(parts: seq<string>): string
    decreases |parts|
  {
    if parts == [] then "" else Concat(parts[..|parts| - 1]) + parts[|parts| - 1]
  }

  lemma {:induction false} ConcatAppend(a: seq<string>, b: seq<string>)
    ensures Concat(a + b) == Concat(a) + Concat(b)
    decreases |b|
  {
    if b == [] {
      assert a + b == a;
    } else {
      var b', last := b[..|b| - 1], b[|b| - 1];
      assert (a + b)[..|a + b| - 1] == a + b';
      assert (a + b)[|a + b| - 1] == last;
      ConcatAppend(a, b');
    }
  }

  lemma ConcatSnoc(a: seq<string>, p: string)
    ensures Concat(a + [p]) == Concat(a) + p
  {
    assert (a + [p])[..|a|] == a;
  }

  /** Python's `sep.join(parts)`. */
  function Join(sep: string, parts: seq<string>): string
    decreases |parts|
  {
    if |parts| == 0 then ""
    else if |parts| == 1 then parts[0]
    else Join(sep, parts[..|parts| - 1]) + sep + parts[|parts| - 1]
  }

  /** Joining one more part adds the separator only when something came before. */
  lemma JoinSnoc(sep: string, parts: seq<string>, p: string)
    ensures Join(sep, parts + [p]) == if parts == [] then p else Join(sep, parts) + sep + p
  {
    assert (parts + [p])[..|parts|] == parts;
  }

  /** The five-part join that assembles an LP file. */
  lemma JoinFive(sep: string, a: string, b: string, c: string, d: string, e: string)
    ensures Join(sep, [a, b, c, d, e]) == a + sep + b + sep + c + sep + d + sep + e
  {
    JoinSnoc(sep, [a], b);
    assert [a] + [b] == [a, b];
    JoinSnoc(sep, [a, b], c);
    assert [a, b] + [c] == [a, b, c];
    JoinSnoc(sep, [a, b, c], d);
    assert [a, b, c] + [d] == [a, b, c, d];
    JoinSnoc(sep, [a, b, c, d], e);
    assert [a, b, c, d] + [e] == [a, b, c, d, e];
  }
}
