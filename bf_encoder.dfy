/**
 * The clause encoder of the formula-synthesis example
 * (examples/bf/src/encoder.rs). It keeps the same counter and clause list
 * as the library encoder and emits the same at-least/at-most/exactly-one
 * clauses, so its contracts are stated with the clause functions of
 * `CoreEncoder`; `new_direct` returns a key/value map from values to fresh
 * variables.
 */
module BfEncoder {
  import opened CoreEncoder
  import opened Seqs
  import opened Text
  import BfMap

  class SatEncoder {
    var numVars: nat
    var clauses: seq<seq<int>>

    constructor (numVars: nat)
      ensures this.numVars == numVars && clauses == []
    {
      this.numVars := numVars;
      clauses := [];
    }

    /** `new_var`: a fresh variable id, one above the previous one. */
    method NewVar() returns (v: int)
      modifies this
      ensures numVars == old(numVars) + 1 && v == numVars && clauses == old(clauses)
    {
      numVars := numVars + 1;
      v := numVars;
    }

    /** `add_clause`: the `assert!` rejects the empty clause. */
    method AddClause(c: seq<int>)
      requires |c| > 0
      modifies this
      ensures clauses == old(clauses) + [c] && numVars == old(numVars)
    {
      clauses := clauses + [c];
    }

    method AtLeastOne(vars: seq<int>)
      requires |vars| > 0
      modifies this
      ensures clauses == old(clauses) + [vars] && numVars == old(numVars)
    {
      AddClause(vars);
    }

    /** `at_most_one`: `[-a, -b]` for every pair of positions `i < j`. */
    method AtMostOne(vars: seq<int>)
      modifies this
      ensures clauses == old(clauses) + AtMostOneClauses(vars) && numVars == old(numVars)
    {
      var cs := clauses;
      ghost var c0 := clauses;
      for i := 0 to |vars|
        invariant cs == c0 + Rows(vars, i)
        modifies {}
      {
        RowsStep(vars, i);
        for j := i + 1 to |vars|
          invariant cs == c0 + Rows(vars, i) + PairsWith(vars[i], vars[i + 1..j])
          modifies {}
        {
          PairsSnoc(vars[i], vars, i + 1, j);
          AppendAssoc(c0 + Rows(vars, i), PairsWith(vars[i], vars[i + 1..j]), [[-vars[i], -vars[j]]]);
          cs := cs + [[-vars[i], -vars[j]]];
        }
        assert vars[i + 1..|vars|] == vars[i + 1..];
        AppendAssoc(c0, Rows(vars, i), PairsWith(vars[i], vars[i + 1..]));
      }
      clauses := cs;
    }

    method ExactlyOne(vars: seq<int>)
      requires |vars| > 0
      modifies this
      ensures clauses == old(clauses) + ExactlyOneClauses(vars) && numVars == old(numVars)
    {
      AtLeastOne(vars);
      AtMostOne(vars);
    }

    /** `new_direct`: one fresh variable per value, in order, as a map from values to variables. */
    method NewDirect<T(==)>(values: seq<T>) returns (m: BfMap.Map<T, int>)
      modifies this
      ensures fresh(m) && m.Valid() && m.keys == values
      ensures numVars == old(numVars) + |values| && clauses == old(clauses)
      ensures forall i :: 0 <= i < |values| ==> m.values[i] == old(numVars) + i + 1
    {
      var vars: seq<int> := [];
      for i := 0 to |values|
        invariant numVars == old(numVars) + i && clauses == old(clauses)
        invariant |vars| == i && forall k :: 0 <= k < i ==> vars[k] == old(numVars) + k + 1
      {
        var v := NewVar();
        vars := vars + [v];
      }
      m := new BfMap.Map(values, vars);
    }

    method ToDimacs() returns (s: string)
      ensures s == Dimacs(numVars, clauses)
    {
      var cs := clauses;
      s := DimacsHeader(numVars, |cs|);
      for i := 0 to |cs|
        invariant s == DimacsHeader(numVars, |cs|) + DimacsLines(cs[..i])
      {
        ghost var s0 := s;
        var c := cs[i];
        for k := 0 to |c|
          invariant s == s0 + Spaced(Tokens(c[..k]))
        {
          TokensSnoc(c, k);
          AppendAssoc(s0, Spaced(Tokens(c[..k])), IntToString(c[k]));
          AppendAssoc(s0, Spaced(Tokens(c[..k])) + IntToString(c[k]), " ");
          s := s + IntToString(c[k]) + " ";
        }
        assert c[..|c|] == c;
        AppendAssoc(s0, Spaced(Tokens(c)), "0\n");
        s := s + "0\n";
        LinesSnoc(cs, i);
        AppendAssoc(DimacsHeader(numVars, |cs|), DimacsLines(cs[..i]), DimacsLine(c));
      }
      assert cs[..|cs|] == cs;
    }
  }
}
