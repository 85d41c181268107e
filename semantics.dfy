/**
 * The DIMACS reading of literals and clauses shared by every encoder of the
 * workspace: a literal is a non-zero integer, `v` stands for "variable v is
 * true" and `-v` for "variable v is false"; a clause is a disjunction and a
 * clause list a conjunction.
 */
module Semantics {
  /** The variable of a literal, `|l|` (`Lit::var` is `unsigned_abs`). */
  function Abs(l: int): nat
  {
    if l >= 0 then l else -l
  }

  /** Literals as the `Lit` types admit them: none is 0. */
  predicate NonZero(xs: seq<int>)
  {
    forall i :: 0 <= i < |xs| ==> xs[i] != 0
  }

  /** A total assignment of truth values to variables. */
  type Model = nat -> bool

  predicate LitTrue(m: Model, l: int)
  {
    if l > 0 then m(l) else !m(-l)
  }

  predicate ClauseSat(m: Model, c: seq<int>)
  {
    exists i :: 0 <= i < |c| && LitTrue(m, c[i])
  }

  predicate CnfSat(m: Model, f: seq<seq<int>>)
  {
    forall i :: 0 <= i < |f| ==> ClauseSat(m, f[i])
  }

  /** The negation of a non-zero literal is true exactly when the literal is false. */
  lemma NegLit(m: Model, l: int)
    requires l != 0
    ensures LitTrue(m, -l) == !LitTrue(m, l)
  {
  }

  lemma ClauseSatAppend(m: Model, c: seq<int>, d: seq<int>)
    ensures ClauseSat(m, c + d) <==> ClauseSat(m, c) || ClauseSat(m, d)
  {
    if ClauseSat(m, c + d) {
      var i :| 0 <= i < |c + d| && LitTrue(m, (c + d)[i]);
      if i >= |c| {
        assert d[i - |c|] == (c + d)[i];
      }
    }
    if ClauseSat(m, d) {
      var i :| 0 <= i < |d| && LitTrue(m, d[i]);
      assert (c + d)[|c| + i] == d[i];
    }
    if ClauseSat(m, c) {
      var i :| 0 <= i < |c| && LitTrue(m, c[i]);
      assert (c + d)[i] == c[i];
    }
  }

  lemma ClauseSatSingle(m: Model, l: int)
    ensures ClauseSat(m, [l]) <==> LitTrue(m, l)
  {
    if LitTrue(m, l) {
      assert [l][0] == l;
    }
  }

  lemma ClauseSatCons(m: Model, l: int, c: seq<int>)
    ensures ClauseSat(m, [l] + c) <==> LitTrue(m, l) || ClauseSat(m, c)
  {
    ClauseSatAppend(m, [l], c);
    ClauseSatSingle(m, l);
  }

  lemma ClauseSat2(m: Model, a: int, b: int)
    ensures ClauseSat(m, [a, b]) <==> LitTrue(m, a) || LitTrue(m, b)
  {
    assert [a, b] == [a] + [b];
    ClauseSatCons(m, a, [b]);
    ClauseSatSingle(m, b);
  }

  lemma ClauseSat3(m: Model, a: int, b: int, c: int)
    ensures ClauseSat(m, [a, b, c]) <==> LitTrue(m, a) || LitTrue(m, b) || LitTrue(m, c)
  {
    assert [a, b, c] == [a] + [b, c];
    ClauseSatCons(m, a, [b, c]);
    ClauseSat2(m, b, c);
  }

  lemma ClauseSat4(m: Model, a: int, b: int, c: int, d: int)
    ensures ClauseSat(m, [a, b, c, d]) <==> LitTrue(m, a) || LitTrue(m, b) || LitTrue(m, c) || LitTrue(m, d)
  {
    assert [a, b, c, d] == [a] + [b, c, d];
    ClauseSatCons(m, a, [b, c, d]);
    ClauseSat3(m, b, c, d);
  }

  lemma ClauseSat5(m: Model, a: int, b: int, c: int, d: int, e: int)
    ensures ClauseSat(m, [a, b, c, d, e]) <==>
      LitTrue(m, a) || LitTrue(m, b) || LitTrue(m, c) || LitTrue(m, d) || LitTrue(m, e)
  {
    assert [a, b, c, d, e] == [a] + [b, c, d, e];
    ClauseSatCons(m, a, [b, c, d, e]);
    ClauseSat4(m, b, c, d, e);
  }

  lemma CnfSatSingle(m: Model, c: seq<int>)
    ensures CnfSat(m, [c]) <==> ClauseSat(m, c)
  {
    assert [c][0] == c;
  }

  lemma CnfSat2(m: Model, c: seq<int>, d: seq<int>)
    ensures CnfSat(m, [c, d]) <==> ClauseSat(m, c) && ClauseSat(m, d)
  {
    assert [c, d][0] == c && [c, d][1] == d;
  }

  lemma CnfSatAppend(m: Model, f: seq<seq<int>>, g: seq<seq<int>>)
    ensures CnfSat(m, f + g) <==> CnfSat(m, f) && CnfSat(m, g)
  {
    if CnfSat(m, f + g) {
      forall i | 0 <= i < |g| ensures ClauseSat(m, g[i]) {
        assert (f + g)[|f| + i] == g[i];
      }
      forall i | 0 <= i < |f| ensures ClauseSat(m, f[i]) {
        assert (f + g)[i] == f[i];
      }
    }
  }

  lemma CnfSatCons(m: Model, c: seq<int>, g: seq<seq<int>>)
    ensures CnfSat(m, [c] + g) <==> ClauseSat(m, c) && CnfSat(m, g)
  {
    CnfSatAppend(m, [c], g);
    assert CnfSat(m, [c]) <==> ClauseSat(m, c) by {
      assert [c][0] == c;
    }
  }
}
