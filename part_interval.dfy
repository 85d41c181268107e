/**
 * Intervals of the input space of the interval-partitioning example: the
 * `index`th interval of size `size` holds the numbers from `index * size`
 * to `index * size + size - 1`, read off a vector of input literals (most
 * significant first), and is encoded with the lexicographic comparisons of
 * `CoreRel` — directly, or reified to a literal that the solver assumes.
 */
module PartInterval {
  import opened Semantics
  import opened BitVec
  import opened CoreRel
  import opened PartUtils

  // ---------- get_bounds ----------

  /** `get_bounds`: the first and last number of interval `index`; `size - 1` demands `size >= 1`. */
  function GetBounds(index: nat, size: nat): (r: (nat, nat))
    requires size >= 1
    ensures r.1 - r.0 + 1 == size
  {
    var low := index * size;
    (low, low + size - 1)
  }

  lemma MulMono(a: nat, b: nat, s: nat)
    requires a <= b
    ensures a * s <= b * s
  {
    assert b * s == a * s + (b - a) * s;
  }

  /** Consecutive intervals abut, and the first one starts at 0. */
  lemma BoundsAbut(index: nat, size: nat)
    requires size >= 1
    ensures GetBounds(0, size).0 == 0
    ensures GetBounds(index + 1, size).0 == GetBounds(index, size).1 + 1
  {
    assert (index + 1) * size == index * size + size;
  }

  /** Distinct intervals do not overlap. */
  lemma BoundsDisjoint(i: nat, j: nat, size: nat)
    requires size >= 1 && i < j
    ensures GetBounds(i, size).1 < GetBounds(j, size).0
  {
    MulMono(i + 1, j, size);
    assert (i + 1) * size == i * size + size;
  }

  /** Every number lies in the interval `v / size`. */
  lemma BoundsCover(v: nat, size: nat)
    requires size >= 1
    ensures GetBounds(v / size, size).0 <= v <= GetBounds(v / size, size).1
  {
    assert v == (v / size) * size + v % size;
  }

  /** A number lies in interval `index` exactly when `index` is its quotient by the size. */
  lemma BoundsLocate(v: nat, index: nat, size: nat)
    requires size >= 1
    ensures GetBounds(index, size).0 <= v <= GetBounds(index, size).1 <==> index == v / size
  {
    BoundsCover(v, size);
    var q := v / size;
    if index < q {
      BoundsDisjoint(index, q, size);
    } else if q < index {
      BoundsDisjoint(q, index, size);
    }
  }

  // ---------- encode_interval ----------

  /**
   * `encode_interval`: `encode_both` of the input literals between the
   * bit vectors of `low` and `high`. `num2bits` demands that both bounds
   * fit in `|lits|` bits (and `|lits| < 64` for the shift); `encode_both`
   * asserts that the vector of `low` is not above the vector of `high`.
   */
  method EncodeInterval(lits: seq<int>, low: nat, high: nat) returns (clauses: seq<seq<int>>)
    requires |lits| < 64 && low < Pow2(|lits|) && high < Pow2(|lits|)
    requires NoHigher(Num2BitsOf(low, |lits|), Num2BitsOf(high, |lits|))
    ensures clauses == BothFrom(lits, Num2BitsOf(low, |lits|), Num2BitsOf(high, |lits|))
  {
    var n := |lits|;
    var a := Num2Bits(low, n);
    var b := Num2Bits(high, n);
    clauses := EncodeBoth(lits, a, b);
  }

  /**
   * For bounds of at most 32 bits with `low <= high`, the assertion of
   * `encode_both` holds and the clauses say that the number the literals
   * stand for lies between `low` and `high`.
   */
  lemma IntervalMeaning(m: Model, lits: seq<int>, low: nat, high: nat)
    requires NonZero(lits) && |lits| <= 32 && low <= high < Pow2(|lits|)
    ensures NoHigher(Num2BitsOf(low, |lits|), Num2BitsOf(high, |lits|))
    ensures CnfSat(m, BothFrom(lits, Num2BitsOf(low, |lits|), Num2BitsOf(high, |lits|))) <==> low <= Val(m, lits) <= high
  {
    var a, b := Num2BitsOf(low, |lits|), Num2BitsOf(high, |lits|);
    Num2BitsValue(low, |lits|);
    Num2BitsValue(high, |lits|);
    NoHigherMeaning(a, b);
    BothCorrect(m, lits, a, b);
  }

  // ---------- encode_interval_reified ----------

  /** The three clauses of `t_both <=> (t_geq && t_leq)`. */
  function BothReified(tGeq: int, tLeq: int, tBoth: int): seq<seq<int>>
  {
    [[-tBoth, tGeq], [-tBoth, tLeq], [tBoth, -tGeq, -tLeq]]
  }

  lemma BothReifiedMeaning(m: Model, tGeq: int, tLeq: int, tBoth: int)
    requires tGeq != 0 && tLeq != 0 && tBoth != 0
    ensures CnfSat(m, BothReified(tGeq, tLeq, tBoth)) <==>
      (LitTrue(m, tBoth) <==> LitTrue(m, tGeq) && LitTrue(m, tLeq))
  {
    var f := BothReified(tGeq, tLeq, tBoth);
    assert f == [[-tBoth, tGeq]] + ([[-tBoth, tLeq]] + [[tBoth, -tGeq, -tLeq]]);
    CnfSatCons(m, [-tBoth, tGeq], [[-tBoth, tLeq]] + [[tBoth, -tGeq, -tLeq]]);
    CnfSatCons(m, [-tBoth, tLeq], [[tBoth, -tGeq, -tLeq]]);
    CnfSatSingle(m, [tBoth, -tGeq, -tLeq]);
    ClauseSat2(m, -tBoth, tGeq);
    ClauseSat2(m, -tBoth, tLeq);
    ClauseSat3(m, tBoth, -tGeq, -tLeq);
    NegLit(m, tBoth);
    NegLit(m, tGeq);
    NegLit(m, tLeq);
  }

  /** The clauses of the reified interval, given the clauses of the two reified comparisons. */
  function ReifiedFrom(geq: seq<seq<int>>, leq: seq<seq<int>>, tGeq: int, tLeq: int, tBoth: int): seq<seq<int>>
  {
    geq + leq + BothReified(tGeq, tLeq, tBoth)
  }

  /**
   * `encode_interval_reified`. `encode_geq_reified` and `encode_leq_reified`
   * are not part of this model: they are the parameters `geqReified` and
   * `leqReified`, called with the trigger literal, the input literals and a
   * bound's bits.
   */
  method EncodeIntervalReified(lits: seq<int>, low: nat, high: nat, tGeq: int, tLeq: int, tBoth: int,
                               geqReified: (int, seq<int>, seq<bool>) -> seq<seq<int>>,
                               leqReified: (int, seq<int>, seq<bool>) -> seq<seq<int>>)
    returns (clauses: seq<seq<int>>)
    requires |lits| < 64 && low < Pow2(|lits|) && high < Pow2(|lits|)
    ensures clauses == ReifiedFrom(geqReified(tGeq, lits, Num2BitsOf(low, |lits|)),
                                   leqReified(tLeq, lits, Num2BitsOf(high, |lits|)), tGeq, tLeq, tBoth)
  {
    var n := |lits|;
    var a := Num2Bits(low, n);
    var b := Num2Bits(high, n);
    clauses := [];
    clauses := clauses + geqReified(tGeq, lits, a);
    clauses := clauses + leqReified(tLeq, lits, b);
    clauses := clauses + [[-tBoth, tGeq]];
    clauses := clauses + [[-tBoth, tLeq]];
    clauses := clauses + [[tBoth, -tGeq, -tLeq]];
  }

  /**
   * If the reified comparisons mean what their names say (their clauses hold
   * exactly when the trigger is equivalent to the comparison), the reified
   * interval's clauses hold exactly when each trigger is equivalent to its
   * comparison and `t_both` to both; assuming `t_both` then pins the input
   * to the interval.
   */
  lemma ReifiedMeaning(m: Model, lits: seq<int>, low: nat, high: nat, tGeq: int, tLeq: int, tBoth: int,
                       geq: seq<seq<int>>, leq: seq<seq<int>>)
    requires |lits| <= 32 && low < Pow2(|lits|) && high < Pow2(|lits|)
    requires tGeq != 0 && tLeq != 0 && tBoth != 0
    requires CnfSat(m, geq) <==> (LitTrue(m, tGeq) <==> Val(m, lits) >= Num(Num2BitsOf(low, |lits|)))
    requires CnfSat(m, leq) <==> (LitTrue(m, tLeq) <==> Val(m, lits) <= Num(Num2BitsOf(high, |lits|)))
    ensures CnfSat(m, ReifiedFrom(geq, leq, tGeq, tLeq, tBoth)) <==>
      (LitTrue(m, tGeq) <==> Val(m, lits) >= low) && (LitTrue(m, tLeq) <==> Val(m, lits) <= high) &&
      (LitTrue(m, tBoth) <==> LitTrue(m, tGeq) && LitTrue(m, tLeq))
    ensures CnfSat(m, ReifiedFrom(geq, leq, tGeq, tLeq, tBoth)) && LitTrue(m, tBoth) ==> low <= Val(m, lits) <= high
  {
    Num2BitsValue(low, |lits|);
    Num2BitsValue(high, |lits|);
    CnfSatAppend(m, geq + leq, BothReified(tGeq, tLeq, tBoth));
    CnfSatAppend(m, geq, leq);
    BothReifiedMeaning(m, tGeq, tLeq, tBoth);
  }

  // ---------- the solver calls ----------

  /** What is handed to the solver: the clauses, the assumptions and the number of variables it then has. */
  datatype Query = Query(clauses: seq<seq<int>>, assumptions: seq<int>, numVars: nat)

  /**
   * `solve_interval` up to the call of `solve`: the input variables become
   * literals and the interval `index` of size `size` is encoded; no
   * variable is added and nothing is assumed.
   */
  method SolveInterval(numVars: nat, inputVariables: seq<nat>, size: nat, index: nat) returns (q: Query)
    requires size >= 1
    requires |inputVariables| < 64 && GetBounds(index, size).1 < Pow2(|inputVariables|)
    requires NoHigher(Num2BitsOf(GetBounds(index, size).0, |inputVariables|), Num2BitsOf(GetBounds(index, size).1, |inputVariables|))
    ensures q.numVars == numVars && q.assumptions == []
    ensures q.clauses == BothFrom(inputVariables, Num2BitsOf(GetBounds(index, size).0, |inputVariables|),
                                  Num2BitsOf(GetBounds(index, size).1, |inputVariables|))
  {
    var lits: seq<int> := inputVariables;
    var (low, high) := GetBounds(index, size);
    var clauses := EncodeInterval(lits, low, high);
    q := Query(clauses, [], numVars);
  }

  /**
   * `solve_interval_reified` up to the call of `solve`: three fresh
   * variables `t_geq`, `t_leq`, `t_both` are allocated first, the reified
   * interval is encoded with them, and `t_both` is assumed.
   */
  method SolveIntervalReified(numVars: nat, inputVariables: seq<nat>, size: nat, index: nat,
                              geqReified: (int, seq<int>, seq<bool>) -> seq<seq<int>>,
                              leqReified: (int, seq<int>, seq<bool>) -> seq<seq<int>>)
    returns (q: Query)
    requires size >= 1
    requires |inputVariables| < 64 && GetBounds(index, size).1 < Pow2(|inputVariables|)
    ensures q.numVars == numVars + 3 && q.assumptions == [numVars + 3]
    ensures q.clauses == ReifiedFrom(geqReified(numVars + 1, inputVariables, Num2BitsOf(GetBounds(index, size).0, |inputVariables|)),
                                     leqReified(numVars + 2, inputVariables, Num2BitsOf(GetBounds(index, size).1, |inputVariables|)),
                                     numVars + 1, numVars + 2, numVars + 3)
  {
    var lits: seq<int> := inputVariables;
    var low := size * index;
    var high := low + size - 1;
    assert (low, high) == GetBounds(index, size);
    var vars := numVars;
    vars := vars + 1;
    var tGeq := vars;
    vars := vars + 1;
    var tLeq := vars;
    vars := vars + 1;
    var tBoth := vars;
    var clauses := EncodeIntervalReified(lits, low, high, tGeq, tLeq, tBoth, geqReified, leqReified);
    q := Query(clauses, [tBoth], vars);
  }
}
