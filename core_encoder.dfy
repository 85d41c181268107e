/**
 * The one-hot clause encoder of lib/core/src/encoder.rs: a variable counter
 * and a growing list of clauses, the cardinality constraints "at least one",
 * "at most one" (pairwise) and "exactly one", direct encoding of a finite
 * domain, and DIMACS output.
 */
module CoreEncoder {
  import opened Semantics
  import opened Text
  import opened Wrappers
  import opened Seqs

  // ---------- the pairwise at-most-one clauses ----------

  /** `[-a, -y]` for every `y` of `ys`, in order. */
  function PairsWith(a: int, ys: seq<int>): (r: seq<seq<int>>)
    ensures |r| == |ys|
  {
    seq(|ys|, k requires 0 <= k < |ys| => [-a, -ys[k]])
  }

  /** The clauses the first `i` rounds of the outer `at_most_one` loop emit. */
  function Rows(xs: seq<int>, i: nat): seq<seq<int>>
    requires i <= |xs|
  {
    if i == 0 then [] else Rows(xs, i - 1) + PairsWith(xs[i - 1], xs[i..])
  }

  /** The clauses of `at_most_one(xs)`. */
  function AtMostOneClauses(xs: seq<int>): seq<seq<int>>
  {
    Rows(xs, |xs|)
  }

  /** The clauses of `exactly_one(xs)`: the at-least-one clause, then the pairs. */
  function ExactlyOneClauses(xs: seq<int>): seq<seq<int>>
  {
    [xs] + AtMostOneClauses(xs)
  }

  /** Round `i` contributes one clause per later literal: `n(n-1)/2` clauses in all. */
  lemma {:induction false} RowsCount(xs: seq<int>, i: nat)
    requires i <= |xs|
    ensures 2 * |Rows(xs, i)| == i * (2 * |xs| - i - 1)
  {
    if i > 0 {
      RowsCount(xs, i - 1);
    }
  }

  lemma AtMostOneCount(xs: seq<int>)
    ensures 2 * |AtMostOneClauses(xs)| == |xs| * (|xs| - 1)
  {
    RowsCount(xs, |xs|);
  }

  /** The number of literals of `xs` that a model makes true. */
  function TrueCount(m: Model, xs: seq<int>): nat
  {
    if |xs| == 0 then 0 else TrueCount(m, xs[..|xs| - 1]) + (if LitTrue(m, xs[|xs| - 1]) then 1 else 0)
  }

  /** No two of the literals at positions `a < b` with `a < i` are both true. */
  predicate NoTwoBefore(m: Model, xs: seq<int>, i: nat)
  {
    forall a, b :: 0 <= a < i && a < b < |xs| ==> !(LitTrue(m, xs[a]) && LitTrue(m, xs[b]))
  }

  /** None of the literals is true. */
  predicate NoneTrue(m: Model, ys: seq<int>)
  {
    forall b :: 0 <= b < |ys| ==> !LitTrue(m, ys[b])
  }

  lemma PairsWithMeaning(m: Model, a: int, ys: seq<int>)
    requires a != 0 && NonZero(ys)
    ensures CnfSat(m, PairsWith(a, ys)) <==> (LitTrue(m, a) ==> NoneTrue(m, ys))
  {
    NegLit(m, a);
    var r := PairsWith(a, ys);
    forall b | 0 <= b < |ys|
      ensures ClauseSat(m, r[b]) <==> !LitTrue(m, a) || !LitTrue(m, ys[b])
    {
      ClauseSat2(m, -a, -ys[b]);
      NegLit(m, ys[b]);
    }
  }

  /** Row `i - 1` of the pairs rules out exactly the pairs that start at position `i - 1`. */
  lemma NoTwoStep(m: Model, xs: seq<int>, i: nat)
    requires 0 < i <= |xs|
    ensures NoTwoBefore(m, xs, i) <==>
      NoTwoBefore(m, xs, i - 1) && (LitTrue(m, xs[i - 1]) ==> NoneTrue(m, xs[i..]))
  {
    assert forall b :: 0 <= b < |xs[i..]| ==> xs[i..][b] == xs[i + b];
    assert forall b :: i <= b < |xs| ==> xs[b] == xs[i..][b - i];
  }

  lemma {:induction false} RowsMeaning(m: Model, xs: seq<int>, i: nat)
    requires i <= |xs| && NonZero(xs)
    ensures CnfSat(m, Rows(xs, i)) <==> NoTwoBefore(m, xs, i)
  {
    if i > 0 {
      var ys := xs[i..];
      var r, p := Rows(xs, i - 1), PairsWith(xs[i - 1], ys);
      assert Rows(xs, i) == r + p;
      RowsMeaning(m, xs, i - 1);
      assert NonZero(ys);
      PairsWithMeaning(m, xs[i - 1], ys);
      CnfSatAppend(m, r, p);
      NoTwoStep(m, xs, i);
    }
  }

  lemma {:induction false} TrueCountZero(m: Model, xs: seq<int>)
    ensures TrueCount(m, xs) == 0 <==> NoneTrue(m, xs)
  {
    if |xs| > 0 {
      var init := xs[..|xs| - 1];
      TrueCountZero(m, init);
      assert forall b :: 0 <= b < |init| ==> init[b] == xs[b];
    }
  }

  /** "No two are true" is "at most one is true". */
  lemma {:induction false} TrueCountAtMostOne(m: Model, xs: seq<int>)
    ensures TrueCount(m, xs) <= 1 <==> NoTwoBefore(m, xs, |xs|)
  {
    if |xs| > 0 {
      var n := |xs| - 1;
      var init := xs[..n];
      TrueCountAtMostOne(m, init);
      TrueCountZero(m, init);
      assert forall b :: 0 <= b < n ==> init[b] == xs[b];
      assert NoTwoBefore(m, xs, |xs|) <==>
        NoTwoBefore(m, init, n) && (LitTrue(m, xs[n]) ==> NoneTrue(m, init));
    }
  }

  lemma {:induction false} TrueCountSome(m: Model, xs: seq<int>)
    ensures TrueCount(m, xs) >= 1 <==> ClauseSat(m, xs)
  {
    TrueCountZero(m, xs);
  }

  /** A model satisfies the at-most-one clauses exactly when at most one literal is true. */
  lemma AtMostOneMeaning(m: Model, xs: seq<int>)
    requires NonZero(xs)
    ensures CnfSat(m, AtMostOneClauses(xs)) <==> TrueCount(m, xs) <= 1
  {
    RowsMeaning(m, xs, |xs|);
    TrueCountAtMostOne(m, xs);
  }

  /** A model satisfies the exactly-one clauses exactly when one literal is true. */
  lemma ExactlyOneMeaning(m: Model, xs: seq<int>)
    requires NonZero(xs)
    ensures CnfSat(m, ExactlyOneClauses(xs)) <==> TrueCount(m, xs) == 1
  {
    CnfSatCons(m, xs, AtMostOneClauses(xs));
    AtMostOneMeaning(m, xs);
    TrueCountSome(m, xs);
  }

  lemma RowsStep(xs: seq<int>, i: nat)
    requires i < |xs|
    ensures Rows(xs, i + 1) == Rows(xs, i) + PairsWith(xs[i], xs[i + 1..])
  {
  }

  lemma PairsSnoc(a: int, xs: seq<int>, lo: nat, j: nat)
    requires lo <= j < |xs|
    ensures PairsWith(a, xs[lo..j + 1]) == PairsWith(a, xs[lo..j]) + [[-a, -xs[j]]]
  {
  }

  // ---------- DIMACS text ----------

  /** A clause line of `to_dimacs`: each literal followed by a space, then `0` and a newline. */
  function DimacsLine(c: seq<int>): string
  {
    Spaced(Tokens(c)) + "0\n"
  }

  function Tokens(c: seq<int>): (ts: seq<string>)
    ensures |ts| == |c| && forall i :: 0 <= i < |c| ==> ts[i] == IntToString(c[i])
  {
    seq(|c|, i requires 0 <= i < |c| => IntToString(c[i]))
  }

  function DimacsLines(cs: seq<seq<int>>): string
  {
    if |cs| == 0 then "" else DimacsLines(cs[..|cs| - 1]) + DimacsLine(cs[|cs| - 1])
  }

  /** The header `p cnf <variables> <clauses>`. */
  function DimacsHeader(numVars: nat, numClauses: nat): string
  {
    "p cnf " + NatToString(numVars) + " " + NatToString(numClauses) + "\n"
  }

  function Dimacs(numVars: nat, cs: seq<seq<int>>): string
  {
    DimacsHeader(numVars, |cs|) + DimacsLines(cs)
  }

  /** The header reads back as the word `p`, the word `cnf` and the two counts. */
  lemma HeaderTokens(numVars: nat, numClauses: nat)
    ensures SplitWhitespace(DimacsHeader(numVars, numClauses)) ==
      ["p", "cnf", NatToString(numVars), NatToString(numClauses)]
  {
    var a, b := NatToString(numVars), NatToString(numClauses);
    AllDigitsToken(a);
    AllDigitsToken(b);
    SplitSpaced(["p", "cnf", a], b + "\n");
    assert ["p", "cnf", a][1..] == ["cnf", a] && ["cnf", a][1..] == [a] && [a][1..] == [];
    assert Spaced([a]) == a + " ";
    assert Spaced(["cnf", a]) == "cnf " + (a + " ");
    assert Spaced(["p", "cnf", a]) == "p " + ("cnf " + (a + " "));
    assert DimacsHeader(numVars, numClauses) == Spaced(["p", "cnf", a]) + (b + "\n");
    SplitFromWord(b, "\n", "");
    assert "" + b == b;
    assert "\n"[1..] == "";
    assert SplitFrom("\n", b) == [b];
  }

  lemma AllDigitsToken(s: string)
    requires |s| > 0 && AllDigits(s)
    ensures NoWhitespace(s)
  {
    assert forall j :: 0 <= j < |s| ==> IsDigit(s[j]);
  }

  lemma LiteralToken(i: int)
    ensures |IntToString(i)| > 0 && NoWhitespace(IntToString(i))
  {
    var d := NatToString(if i < 0 then -i else i);
    AllDigitsToken(d);
  }

  /** A clause line reads back as the decimal literals, in order, and a final `0`. */
  lemma LineTokens(c: seq<int>)
    ensures SplitWhitespace(DimacsLine(c)) == Tokens(c) + ["0"]
    ensures forall i :: 0 <= i < |c| ==> ParseSigned(Tokens(c)[i], c[i], c[i] + 1) == Some(c[i])
  {
    var ts := Tokens(c);
    forall i | 0 <= i < |ts|
      ensures |ts[i]| > 0 && NoWhitespace(ts[i])
      ensures ParseSigned(ts[i], c[i], c[i] + 1) == Some(c[i])
    {
      LiteralToken(c[i]);
      ParseSignedRoundTrip(c[i], c[i], c[i] + 1);
    }
    SplitSpaced(ts, "0\n");
    assert "0\n" == "0" + "\n";
    SplitFromWord("0", "\n", "");
    assert "" + "0" == "0";
    assert "\n"[1..] == "";
    assert SplitFrom("\n", "0") == ["0"];
  }

  // ---------- the encoder ----------

  class CnfEncoder {
    var numVars: nat
    var clauses: seq<seq<int>>

    constructor (numVars: nat)
      ensures this.numVars == numVars && clauses == []
    {
      this.numVars := numVars;
      clauses := [];
    }

    /** `new_var`: the next variable, as a positive literal. */
    method NewVar() returns (l: int)
      modifies this
      ensures numVars == old(numVars) + 1 && l == numVars && clauses == old(clauses)
    {
      numVars := numVars + 1;
      l := numVars;
    }

    /** `add_clause`: the `assert!` rejects the empty clause. */
    method AddClause(c: seq<int>)
      requires |c| > 0
      modifies this
      ensures clauses == old(clauses) + [c] && numVars == old(numVars)
    {
      clauses := clauses + [c];
    }

    method AtLeastOne(lits: seq<int>)
      requires |lits| > 0
      modifies this
      ensures clauses == old(clauses) + [lits] && numVars == old(numVars)
    {
      AddClause(lits);
    }

    /** `at_most_one`: `[-a, -b]` for every pair of positions `i < j`. */
    method AtMostOne(lits: seq<int>)
      modifies this
      ensures clauses == old(clauses) + AtMostOneClauses(lits) && numVars == old(numVars)
    {
      var cs := clauses;
      ghost var c0 := clauses;
      for i := 0 to |lits|
        invariant cs == c0 + Rows(lits, i)
        modifies {}
      {
        RowsStep(lits, i);
        for j := i + 1 to |lits|
          invariant cs == c0 + Rows(lits, i) + PairsWith(lits[i], lits[i + 1..j])
          modifies {}
        {
          PairsSnoc(lits[i], lits, i + 1, j);
          AppendAssoc(c0 + Rows(lits, i), PairsWith(lits[i], lits[i + 1..j]), [[-lits[i], -lits[j]]]);
          cs := cs + [[-lits[i], -lits[j]]];
        }
        assert lits[i + 1..|lits|] == lits[i + 1..];
        AppendAssoc(c0, Rows(lits, i), PairsWith(lits[i], lits[i + 1..]));
      }
      clauses := cs;
    }

    method ExactlyOne(lits: seq<int>)
      requires |lits| > 0
      modifies this
      ensures clauses == old(clauses) + ExactlyOneClauses(lits) && numVars == old(numVars)
    {
      AtLeastOne(lits);
      AtMostOne(lits);
    }

    /** `new_direct`: one fresh variable per value, in order (the keys of the returned map). */
    method NewDirect<T>(values: seq<T>) returns (vars: seq<int>)
      modifies this
      ensures numVars == old(numVars) + |values| && clauses == old(clauses)
      ensures |vars| == |values| && forall i :: 0 <= i < |vars| ==> vars[i] == old(numVars) + i + 1
    {
      vars := [];
      for i := 0 to |values|
        invariant numVars == old(numVars) + i && clauses == old(clauses)
        invariant |vars| == i && forall k :: 0 <= k < i ==> vars[k] == old(numVars) + k + 1
      {
        var l := NewVar();
        vars := vars + [l];
      }
    }

    method ToDimacs() returns (s: string)
      ensures s == Dimacs(numVars, clauses)
    {
      var cs := clauses;
      s := DimacsHeader(numVars, |cs|);
      for i := 0 to |cs|
        invariant s == DimacsHeader(numVars, |cs|) + DimacsLines(cs[..i])
      {
        ghost var s0 := s;
        var c := cs[i];
        for k := 0 to |c|
          invariant s == s0 + Spaced(Tokens(c[..k]))
        {
          TokensSnoc(c, k);
          AppendAssoc(s0, Spaced(Tokens(c[..k])), IntToString(c[k]));
          AppendAssoc(s0, Spaced(Tokens(c[..k])) + IntToString(c[k]), " ");
          s := s + IntToString(c[k]) + " ";
        }
        assert c[..|c|] == c;
        AppendAssoc(s0, Spaced(Tokens(c)), "0\n");
        s := s + "0\n";
        LinesSnoc(cs, i);
        AppendAssoc(DimacsHeader(numVars, |cs|), DimacsLines(cs[..i]), DimacsLine(c));
      }
      assert cs[..|cs|] == cs;
    }
  }

  lemma TokensSnoc(c: seq<int>, k: nat)
    requires k < |c|
    ensures Spaced(Tokens(c[..k + 1])) == Spaced(Tokens(c[..k])) + IntToString(c[k]) + " "
  {
    assert Tokens(c[..k + 1]) == Tokens(c[..k]) + [IntToString(c[k])];
    SpacedSnoc(Tokens(c[..k]), IntToString(c[k]));
  }

  lemma LinesSnoc(cs: seq<seq<int>>, i: nat)
    requires i < |cs|
    ensures DimacsLines(cs[..i + 1]) == DimacsLines(cs[..i]) + DimacsLine(cs[i])
  {
    assert cs[..i + 1][..i] == cs[..i];
  }

  lemma {:induction false} SpacedSnoc(ts: seq<string>, t: string)
    ensures Spaced(ts + [t]) == Spaced(ts) + t + " "
  {
    if |ts| > 0 {
      assert (ts + [t])[1..] == ts[1..] + [t];
      SpacedSnoc(ts[1..], t);
    } else {
      assert Spaced([t]) == t + " " + Spaced([]);
    }
  }
}
