/**
 * Lexicographic comparison of a vector of literals with a constant bit
 * vector (lib/core/src/op/rel.rs). `x` lists the literals of a number from
 * the most significant bit down; `a` and `b` are constants in the same order.
 * `encode_geq` says "x >= a", `encode_leq` says "x <= b" and `encode_both`
 * says "a <= x <= b".
 */
module CoreRel {
  import opened Semantics
  import opened BitVec

  /** The bits a model gives to the literals of `x`. */
  function Assigned(m: Model, x: seq<int>): (r: seq<bool>)
    ensures |r| == |x|
  {
    if |x| == 0 then [] else [LitTrue(m, x[0])] + Assigned(m, x[1..])
  }

  /** The number a model gives to `x`. */
  function Val(m: Model, x: seq<int>): nat
  {
    Num(Assigned(m, x))
  }

  // ---------- the clause lists ----------

  /**
   * The clauses the `encode_geq` loop emits from position 0 of `x` on, when
   * `p` holds the literals collected so far for the zero bits of `a`.
   */
  function GeqFrom(p: seq<int>, x: seq<int>, a: seq<bool>): (r: seq<seq<int>>)
    requires |x| == |a|
    decreases |x|
  {
    if |x| == 0 then []
    else if a[0] then [p + [x[0]]] + GeqFrom(p, x[1..], a[1..])
    else GeqFrom(p + [x[0]], x[1..], a[1..])
  }

  /** The dual for `encode_leq`: `p` collects the negations for the one bits of `b`. */
  function LeqFrom(p: seq<int>, x: seq<int>, b: seq<bool>): (r: seq<seq<int>>)
    requires |x| == |b|
    decreases |x|
  {
    if |x| == 0 then []
    else if !b[0] then [p + [-x[0]]] + LeqFrom(p, x[1..], b[1..])
    else LeqFrom(p + [-x[0]], x[1..], b[1..])
  }

  /**
   * The assertions of `encode_both`: up to the first position where `a` has a
   * zero and `b` a one, no position has a one in `a` and a zero in `b`.
   */
  predicate NoHigher(a: seq<bool>, b: seq<bool>)
    requires |a| == |b|
    decreases |a|
  {
    |a| == 0 || (!a[0] && b[0]) || (a[0] == b[0] && NoHigher(a[1..], b[1..]))
  }

  /** `encode_both`: units while `a` and `b` agree, then the `geq` and `leq` tails. */
  function BothFrom(x: seq<int>, a: seq<bool>, b: seq<bool>): (r: seq<seq<int>>)
    requires |x| == |a| == |b| && NoHigher(a, b)
    decreases |x|
  {
    if |x| == 0 then []
    else if a[0] then [[x[0]]] + BothFrom(x[1..], a[1..], b[1..])
    else if !b[0] then [[-x[0]]] + BothFrom(x[1..], a[1..], b[1..])
    else GeqFrom([x[0]], x[1..], a[1..]) + LeqFrom([-x[0]], x[1..], b[1..])
  }

  // ---------- what the clauses mean ----------

  lemma AssignedTail(m: Model, x: seq<int>)
    requires |x| > 0
    ensures Assigned(m, x)[0] == LitTrue(m, x[0]) && Assigned(m, x)[1..] == Assigned(m, x[1..])
  {
  }

  /** The leading bit of a number decides a comparison with a number whose leading bit differs. */
  lemma LeadingBit(u: seq<bool>, v: seq<bool>)
    requires |u| == |v| > 0 && u[0] && !v[0]
    ensures Num(u) > Num(v)
  {
    NumBound(v[1..]);
  }

  /** Collecting a literal into the prefix is the same as putting it in front of every clause. */
  lemma {:induction false} GeqMeaning(m: Model, p: seq<int>, x: seq<int>, a: seq<bool>)
    requires |x| == |a|
    ensures CnfSat(m, GeqFrom(p, x, a)) <==> ClauseSat(m, p) || Val(m, x) >= Num(a)
    decreases |x|
  {
    if |x| > 0 {
      var u := Assigned(m, x);
      AssignedTail(m, x);
      ClauseSatSingle(m, x[0]);
      if a[0] {
        GeqMeaning(m, p, x[1..], a[1..]);
        ClauseSatAppend(m, p, [x[0]]);
        CnfSatCons(m, p + [x[0]], GeqFrom(p, x[1..], a[1..]));
        if !u[0] {
          LeadingBit(a, u);
        }
      } else {
        GeqMeaning(m, p + [x[0]], x[1..], a[1..]);
        ClauseSatAppend(m, p, [x[0]]);
        if u[0] {
          LeadingBit(u, a);
        }
      }
    }
  }

  lemma {:induction false} LeqMeaning(m: Model, p: seq<int>, x: seq<int>, b: seq<bool>)
    requires |x| == |b| && NonZero(x)
    ensures CnfSat(m, LeqFrom(p, x, b)) <==> ClauseSat(m, p) || Val(m, x) <= Num(b)
    decreases |x|
  {
    if |x| > 0 {
      var u := Assigned(m, x);
      AssignedTail(m, x);
      NegLit(m, x[0]);
      assert NonZero(x[1..]);
      ClauseSatSingle(m, -x[0]);
      if !b[0] {
        LeqMeaning(m, p, x[1..], b[1..]);
        ClauseSatAppend(m, p, [-x[0]]);
        CnfSatCons(m, p + [-x[0]], LeqFrom(p, x[1..], b[1..]));
        if u[0] {
          LeadingBit(u, b);
        }
      } else {
        LeqMeaning(m, p + [-x[0]], x[1..], b[1..]);
        ClauseSatAppend(m, p, [-x[0]]);
        if !u[0] {
          LeadingBit(b, u);
        }
      }
    }
  }

  /** The clauses of `encode_geq` hold exactly when `x >= a`. */
  lemma GeqCorrect(m: Model, x: seq<int>, a: seq<bool>)
    requires |x| == |a|
    ensures CnfSat(m, GeqFrom([], x, a)) <==> Val(m, x) >= Num(a)
  {
    GeqMeaning(m, [], x, a);
  }

  /** The clauses of `encode_leq` hold exactly when `x <= b`. */
  lemma LeqCorrect(m: Model, x: seq<int>, b: seq<bool>)
    requires |x| == |b| && NonZero(x)
    ensures CnfSat(m, LeqFrom([], x, b)) <==> Val(m, x) <= Num(b)
  {
    LeqMeaning(m, [], x, b);
  }

  /** The assertions of `encode_both` hold exactly when `a <= b`. */
  lemma {:induction false} NoHigherMeaning(a: seq<bool>, b: seq<bool>)
    requires |a| == |b|
    ensures NoHigher(a, b) <==> Num(a) <= Num(b)
    decreases |a|
  {
    if |a| > 0 {
      NoHigherMeaning(a[1..], b[1..]);
      if a[0] && !b[0] {
        LeadingBit(a, b);
      } else if !a[0] && b[0] {
        LeadingBit(b, a);
      }
    }
  }

  lemma ValCons(m: Model, x: seq<int>)
    requires |x| > 0
    ensures Val(m, x) == (if LitTrue(m, x[0]) then Pow2(|x| - 1) else 0) + Val(m, x[1..])
  {
    AssignedTail(m, x);
  }

  /** A position where `a` and `b` both have a one: a unit `x[0]`, then the rest. */
  lemma BothOne(m: Model, x: seq<int>, a: seq<bool>, b: seq<bool>)
    requires |x| == |a| == |b| > 0 && a[0] && b[0] && NoHigher(a[1..], b[1..])
    requires CnfSat(m, BothFrom(x[1..], a[1..], b[1..])) <==> Num(a[1..]) <= Val(m, x[1..]) <= Num(b[1..])
    ensures CnfSat(m, [[x[0]]] + BothFrom(x[1..], a[1..], b[1..])) <==> Num(a) <= Val(m, x) <= Num(b)
  {
    CnfSatCons(m, [x[0]], BothFrom(x[1..], a[1..], b[1..]));
    ClauseSatSingle(m, x[0]);
    ValCons(m, x);
    if !LitTrue(m, x[0]) {
      NumBound(Assigned(m, x[1..]));
    }
  }

  /** A position where `a` and `b` both have a zero: a unit `-x[0]`, then the rest. */
  lemma BothZero(m: Model, x: seq<int>, a: seq<bool>, b: seq<bool>)
    requires |x| == |a| == |b| > 0 && !a[0] && !b[0] && x[0] != 0 && NoHigher(a[1..], b[1..])
    requires CnfSat(m, BothFrom(x[1..], a[1..], b[1..])) <==> Num(a[1..]) <= Val(m, x[1..]) <= Num(b[1..])
    ensures CnfSat(m, [[-x[0]]] + BothFrom(x[1..], a[1..], b[1..])) <==> Num(a) <= Val(m, x) <= Num(b)
  {
    CnfSatCons(m, [-x[0]], BothFrom(x[1..], a[1..], b[1..]));
    ClauseSatSingle(m, -x[0]);
    NegLit(m, x[0]);
    ValCons(m, x);
    if LitTrue(m, x[0]) {
      NumBound(b[1..]);
    }
  }

  /** The first position where `a` has a zero and `b` a one: the two tails. */
  lemma BothSplit(m: Model, x: seq<int>, a: seq<bool>, b: seq<bool>)
    requires |x| == |a| == |b| > 0 && !a[0] && b[0] && NonZero(x)
    ensures CnfSat(m, GeqFrom([x[0]], x[1..], a[1..]) + LeqFrom([-x[0]], x[1..], b[1..])) <==>
      Num(a) <= Val(m, x) <= Num(b)
  {
    assert NonZero(x[1..]);
    GeqMeaning(m, [x[0]], x[1..], a[1..]);
    LeqMeaning(m, [-x[0]], x[1..], b[1..]);
    CnfSatAppend(m, GeqFrom([x[0]], x[1..], a[1..]), LeqFrom([-x[0]], x[1..], b[1..]));
    ClauseSatSingle(m, x[0]);
    ClauseSatSingle(m, -x[0]);
    NegLit(m, x[0]);
    ValCons(m, x);
    NumBound(a[1..]);
    NumBound(Assigned(m, x[1..]));
  }

  /** The clauses of `encode_both` hold exactly when `a <= x <= b`. */
  lemma {:induction false} BothCorrect(m: Model, x: seq<int>, a: seq<bool>, b: seq<bool>)
    requires |x| == |a| == |b| && NoHigher(a, b) && NonZero(x)
    ensures CnfSat(m, BothFrom(x, a, b)) <==> Num(a) <= Val(m, x) <= Num(b)
    decreases |x|
  {
    if |x| > 0 {
      if a[0] || !b[0] {
        assert NonZero(x[1..]);
        BothCorrect(m, x[1..], a[1..], b[1..]);
        if a[0] {
          BothOne(m, x, a, b);
        } else {
          BothZero(m, x, a, b);
        }
      } else {
        BothSplit(m, x, a, b);
      }
    }
  }

  // ---------- the loops ----------

  lemma GeqUnfold(p: seq<int>, x: seq<int>, a: seq<bool>, i: nat)
    requires |x| == |a| && i < |x|
    ensures GeqFrom(p, x[i..], a[i..]) ==
      if a[i] then [p + [x[i]]] + GeqFrom(p, x[i + 1..], a[i + 1..])
      else GeqFrom(p + [x[i]], x[i + 1..], a[i + 1..])
  {
    assert x[i..][1..] == x[i + 1..] && a[i..][1..] == a[i + 1..];
  }

  lemma LeqUnfold(p: seq<int>, x: seq<int>, b: seq<bool>, i: nat)
    requires |x| == |b| && i < |x|
    ensures LeqFrom(p, x[i..], b[i..]) ==
      if !b[i] then [p + [-x[i]]] + LeqFrom(p, x[i + 1..], b[i + 1..])
      else LeqFrom(p + [-x[i]], x[i + 1..], b[i + 1..])
  {
    assert x[i..][1..] == x[i + 1..] && b[i..][1..] == b[i + 1..];
  }

  /** The `for i in start..n` loop of the geq encoding with the initial prefix `p0`. */
  method GeqLoop(p0: seq<int>, x: seq<int>, a: seq<bool>, start: nat) returns (clauses: seq<seq<int>>)
    requires |x| == |a| && start <= |x|
    ensures clauses == GeqFrom(p0, x[start..], a[start..])
  {
    clauses := [];
    var prefix := p0;
    var i := start;
    while i < |x|
      invariant start <= i <= |x|
      invariant clauses + GeqFrom(prefix, x[i..], a[i..]) == GeqFrom(p0, x[start..], a[start..])
    {
      GeqUnfold(prefix, x, a, i);
      if a[i] {
        var newClause := prefix + [x[i]];
        clauses := clauses + [newClause];
      } else {
        prefix := prefix + [x[i]];
      }
      i := i + 1;
    }
  }

  /** The `for i in start..n` loop of the leq encoding with the initial prefix `p0`. */
  method LeqLoop(p0: seq<int>, x: seq<int>, b: seq<bool>, start: nat) returns (clauses: seq<seq<int>>)
    requires |x| == |b| && start <= |x|
    ensures clauses == LeqFrom(p0, x[start..], b[start..])
  {
    clauses := [];
    var prefix := p0;
    var i := start;
    while i < |x|
      invariant start <= i <= |x|
      invariant clauses + LeqFrom(prefix, x[i..], b[i..]) == LeqFrom(p0, x[start..], b[start..])
    {
      LeqUnfold(prefix, x, b, i);
      if !b[i] {
        var newClause := prefix + [-x[i]];
        clauses := clauses + [newClause];
      } else {
        prefix := prefix + [-x[i]];
      }
      i := i + 1;
    }
  }

  /** `encode_geq`: the lengths must agree (`assert_eq!`). */
  method EncodeGeq(x: seq<int>, a: seq<bool>) returns (clauses: seq<seq<int>>)
    requires |x| == |a|
    ensures clauses == GeqFrom([], x, a)
  {
    if |x| == 0 {
      return [];
    }
    clauses := GeqLoop([], x, a, 0);
    assert x[0..] == x && a[0..] == a;
  }

  /** `encode_leq`: the lengths must agree (`assert_eq!`). */
  method EncodeLeq(x: seq<int>, b: seq<bool>) returns (clauses: seq<seq<int>>)
    requires |x| == |b|
    ensures clauses == LeqFrom([], x, b)
  {
    if |x| == 0 {
      return [];
    }
    clauses := LeqLoop([], x, b, 0);
    assert x[0..] == x && b[0..] == b;
  }

  lemma BothUnfold(x: seq<int>, a: seq<bool>, b: seq<bool>, i: nat)
    requires |x| == |a| == |b| && i < |x| && NoHigher(a[i..], b[i..])
    ensures a[i] || !b[i] ==> NoHigher(a[i + 1..], b[i + 1..])
    ensures a[i] ==> BothFrom(x[i..], a[i..], b[i..]) == [[x[i]]] + BothFrom(x[i + 1..], a[i + 1..], b[i + 1..])
    ensures !a[i] && !b[i] ==> BothFrom(x[i..], a[i..], b[i..]) == [[-x[i]]] + BothFrom(x[i + 1..], a[i + 1..], b[i + 1..])
    ensures !a[i] && b[i] ==>
      BothFrom(x[i..], a[i..], b[i..]) == GeqFrom([x[i]], x[i + 1..], a[i + 1..]) + LeqFrom([-x[i]], x[i + 1..], b[i + 1..])
  {
    assert x[i..][1..] == x[i + 1..] && a[i..][1..] == a[i + 1..] && b[i..][1..] == b[i + 1..];
  }

  /**
   * `encode_both`: the lengths must agree, and the `assert!`s require that
   * `a` is not above `b` in the first position where they differ.
   */
  method EncodeBoth(x: seq<int>, a: seq<bool>, b: seq<bool>) returns (clauses: seq<seq<int>>)
    requires |x| == |a| == |b| && NoHigher(a, b)
    ensures clauses == BothFrom(x, a, b)
  {
    if |x| == 0 {
      return [];
    }
    assert x[0..] == x && a[0..] == a && b[0..] == b;
    clauses := [];
    var found := false;
    var i := 0;
    while i < |x|
      invariant 0 <= i <= |x| && !found
      invariant NoHigher(a[i..], b[i..]) && clauses + BothFrom(x[i..], a[i..], b[i..]) == BothFrom(x, a, b)
    {
      BothUnfold(x, a, b, i);
      if a[i] {
        clauses := clauses + [[x[i]]];
      } else if !b[i] {
        clauses := clauses + [[-x[i]]];
      } else {
        found := true;
        break;
      }
      i := i + 1;
    }
    if found {
      var geq := GeqLoop([x[i]], x, a, i + 1);
      var leq := LeqLoop([-x[i]], x, b, i + 1);
      assert clauses + BothFrom(x[i..], a[i..], b[i..]) == clauses + geq + leq;
      clauses := clauses + geq;
      clauses := clauses + leq;
    } else {
      assert x[i..] == [];
    }
  }

  // ---------- the tests ----------

  /** `num2bits(13, 8)` and `num2bits(42, 8)`. */
  const A13: seq<bool> := [false, false, false, false, true, true, false, true]
  const B42: seq<bool> := [false, false, true, false, true, false, true, false]
  const X8: seq<int> := [1, 2, 3, 4, 5, 6, 7, 8]

  // One unfolding per lemma keeps each literal computation small.

  lemma GeqStep1()
    ensures GeqFrom([1, 2, 3, 4, 7], [], []) == []
  {
  }

  lemma GeqStep2()
    ensures GeqFrom([1, 2, 3, 4, 7], [8], [true]) == [[1, 2, 3, 4, 7, 8]]
  {
    GeqStep1();
    assert [8][1..] == [] && [true][1..] == [] && [1, 2, 3, 4, 7] + [8] == [1, 2, 3, 4, 7, 8];
  }

  lemma GeqStep3()
    ensures GeqFrom([1, 2, 3, 4], [7, 8], [false, true]) == [[1, 2, 3, 4, 7, 8]]
  {
    GeqStep2();
    assert [7, 8][1..] == [8] && [false, true][1..] == [true] && [1, 2, 3, 4] + [7] == [1, 2, 3, 4, 7];
  }

  lemma GeqStep4()
    ensures GeqFrom([1, 2, 3, 4], [6, 7, 8], [true, false, true]) == [[1, 2, 3, 4, 6], [1, 2, 3, 4, 7, 8]]
  {
    GeqStep3();
    assert [6, 7, 8][1..] == [7, 8] && [true, false, true][1..] == [false, true] && [1, 2, 3, 4] + [6] == [1, 2, 3, 4, 6];
  }

  lemma GeqStep5()
    ensures GeqFrom([1, 2, 3, 4], [5, 6, 7, 8], [true, true, false, true]) == [[1, 2, 3, 4, 5], [1, 2, 3, 4, 6], [1, 2, 3, 4, 7, 8]]
  {
    GeqStep4();
    assert [5, 6, 7, 8][1..] == [6, 7, 8] && [true, true, false, true][1..] == [true, false, true] && [1, 2, 3, 4] + [5] == [1, 2, 3, 4, 5];
  }

  lemma GeqStep6()
    ensures GeqFrom([1, 2, 3], [4, 5, 6, 7, 8], [false, true, true, false, true]) == [[1, 2, 3, 4, 5], [1, 2, 3, 4, 6], [1, 2, 3, 4, 7, 8]]
  {
    GeqStep5();
    assert [4, 5, 6, 7, 8][1..] == [5, 6, 7, 8] && [false, true, true, false, true][1..] == [true, true, false, true] && [1, 2, 3] + [4] == [1, 2, 3, 4];
  }

  lemma GeqStep7()
    ensures GeqFrom([1, 2], [3, 4, 5, 6, 7, 8], [false, false, true, true, false, true]) == [[1, 2, 3, 4, 5], [1, 2, 3, 4, 6], [1, 2, 3, 4, 7, 8]]
  {
    GeqStep6();
    assert [3, 4, 5, 6, 7, 8][1..] == [4, 5, 6, 7, 8] && [false, false, true, true, false, true][1..] == [false, true, true, false, true] && [1, 2] + [3] == [1, 2, 3];
  }

  lemma GeqStep8()
    ensures GeqFrom([1], [2, 3, 4, 5, 6, 7, 8], [false, false, false, true, true, false, true]) == [[1, 2, 3, 4, 5], [1, 2, 3, 4, 6], [1, 2, 3, 4, 7, 8]]
  {
    GeqStep7();
    assert [2, 3, 4, 5, 6, 7, 8][1..] == [3, 4, 5, 6, 7, 8] && [false, false, false, true, true, false, true][1..] == [false, false, true, true, false, true] && [1] + [2] == [1, 2];
  }

  lemma GeqStep9()
    ensures GeqFrom([], [1, 2, 3, 4, 5, 6, 7, 8], [false, false, false, false, true, true, false, true]) == [[1, 2, 3, 4, 5], [1, 2, 3, 4, 6], [1, 2, 3, 4, 7, 8]]
  {
    GeqStep8();
    assert [1, 2, 3, 4, 5, 6, 7, 8][1..] == [2, 3, 4, 5, 6, 7, 8] && [false, false, false, false, true, true, false, true][1..] == [false, false, false, true, true, false, true] && [] + [1] == [1];
  }

  lemma LeqStep1()
    ensures LeqFrom([-3, -5, -7], [], []) == []
  {
  }

  lemma LeqStep2()
    ensures LeqFrom([-3, -5, -7], [8], [false]) == [[-3, -5, -7, -8]]
  {
    LeqStep1();
    assert [8][1..] == [] && [false][1..] == [] && [-3, -5, -7] + [-8] == [-3, -5, -7, -8];
  }

  lemma LeqStep3()
    ensures LeqFrom([-3, -5], [7, 8], [true, false]) == [[-3, -5, -7, -8]]
  {
    LeqStep2();
    assert [7, 8][1..] == [8] && [true, false][1..] == [false] && [-3, -5] + [-7] == [-3, -5, -7];
  }

  lemma LeqStep4()
    ensures LeqFrom([-3, -5], [6, 7, 8], [false, true, false]) == [[-3, -5, -6], [-3, -5, -7, -8]]
  {
    LeqStep3();
    assert [6, 7, 8][1..] == [7, 8] && [false, true, false][1..] == [true, false] && [-3, -5] + [-6] == [-3, -5, -6];
  }

  lemma LeqStep5()
    ensures LeqFrom([-3], [5, 6, 7, 8], [true, false, true, false]) == [[-3, -5, -6], [-3, -5, -7, -8]]
  {
    LeqStep4();
    assert [5, 6, 7, 8][1..] == [6, 7, 8] && [true, false, true, false][1..] == [false, true, false] && [-3] + [-5] == [-3, -5];
  }

  lemma LeqStep6()
    ensures LeqFrom([-3], [4, 5, 6, 7, 8], [false, true, false, true, false]) == [[-3, -4], [-3, -5, -6], [-3, -5, -7, -8]]
  {
    LeqStep5();
    assert [4, 5, 6, 7, 8][1..] == [5, 6, 7, 8] && [false, true, false, true, false][1..] == [true, false, true, false] && [-3] + [-4] == [-3, -4];
  }

  lemma LeqStep7()
    ensures LeqFrom([], [3, 4, 5, 6, 7, 8], [true, false, true, false, true, false]) == [[-3, -4], [-3, -5, -6], [-3, -5, -7, -8]]
  {
    LeqStep6();
    assert [3, 4, 5, 6, 7, 8][1..] == [4, 5, 6, 7, 8] && [true, false, true, false, true, false][1..] == [false, true, false, true, false] && [] + [-3] == [-3];
  }

  lemma LeqStep8()
    ensures LeqFrom([], [2, 3, 4, 5, 6, 7, 8], [false, true, false, true, false, true, false]) == [[-2], [-3, -4], [-3, -5, -6], [-3, -5, -7, -8]]
  {
    LeqStep7();
    assert [2, 3, 4, 5, 6, 7, 8][1..] == [3, 4, 5, 6, 7, 8] && [false, true, false, true, false, true, false][1..] == [true, false, true, false, true, false] && [] + [-2] == [-2];
  }

  lemma LeqStep9()
    ensures LeqFrom([], [1, 2, 3, 4, 5, 6, 7, 8], [false, false, true, false, true, false, true, false]) == [[-1], [-2], [-3, -4], [-3, -5, -6], [-3, -5, -7, -8]]
  {
    LeqStep8();
    assert [1, 2, 3, 4, 5, 6, 7, 8][1..] == [2, 3, 4, 5, 6, 7, 8] && [false, false, true, false, true, false, true, false][1..] == [false, true, false, true, false, true, false] && [] + [-1] == [-1];
  }

  lemma BothStep1()
    ensures GeqFrom([3, 4, 7], [], []) == []
  {
  }

  lemma BothStep2()
    ensures GeqFrom([3, 4, 7], [8], [true]) == [[3, 4, 7, 8]]
  {
    BothStep1();
    assert [8][1..] == [] && [true][1..] == [] && [3, 4, 7] + [8] == [3, 4, 7, 8];
  }

  lemma BothStep3()
    ensures GeqFrom([3, 4], [7, 8], [false, true]) == [[3, 4, 7, 8]]
  {
    BothStep2();
    assert [7, 8][1..] == [8] && [false, true][1..] == [true] && [3, 4] + [7] == [3, 4, 7];
  }

  lemma BothStep4()
    ensures GeqFrom([3, 4], [6, 7, 8], [true, false, true]) == [[3, 4, 6], [3, 4, 7, 8]]
  {
    BothStep3();
    assert [6, 7, 8][1..] == [7, 8] && [true, false, true][1..] == [false, true] && [3, 4] + [6] == [3, 4, 6];
  }

  lemma BothStep5()
    ensures GeqFrom([3, 4], [5, 6, 7, 8], [true, true, false, true]) == [[3, 4, 5], [3, 4, 6], [3, 4, 7, 8]]
  {
    BothStep4();
    assert [5, 6, 7, 8][1..] == [6, 7, 8] && [true, true, false, true][1..] == [true, false, true] && [3, 4] + [5] == [3, 4, 5];
  }

  lemma BothStep6()
    ensures GeqFrom([3], [4, 5, 6, 7, 8], [false, true, true, false, true]) == [[3, 4, 5], [3, 4, 6], [3, 4, 7, 8]]
  {
    BothStep5();
    assert [4, 5, 6, 7, 8][1..] == [5, 6, 7, 8] && [false, true, true, false, true][1..] == [true, true, false, true] && [3] + [4] == [3, 4];
  }

  lemma BothStep7()
    ensures LeqFrom([-3, -5, -7], [], []) == []
  {
    BothStep6();
  }

  lemma BothStep8()
    ensures LeqFrom([-3, -5, -7], [8], [false]) == [[-3, -5, -7, -8]]
  {
    BothStep7();
    assert [8][1..] == [] && [false][1..] == [] && [-3, -5, -7] + [-8] == [-3, -5, -7, -8];
  }

  lemma BothStep9()
    ensures LeqFrom([-3, -5], [7, 8], [true, false]) == [[-3, -5, -7, -8]]
  {
    BothStep8();
    assert [7, 8][1..] == [8] && [true, false][1..] == [false] && [-3, -5] + [-7] == [-3, -5, -7];
  }

  lemma BothStep10()
    ensures LeqFrom([-3, -5], [6, 7, 8], [false, true, false]) == [[-3, -5, -6], [-3, -5, -7, -8]]
  {
    BothStep9();
    assert [6, 7, 8][1..] == [7, 8] && [false, true, false][1..] == [true, false] && [-3, -5] + [-6] == [-3, -5, -6];
  }

  lemma BothStep11()
    ensures LeqFrom([-3], [5, 6, 7, 8], [true, false, true, false]) == [[-3, -5, -6], [-3, -5, -7, -8]]
  {
    BothStep10();
    assert [5, 6, 7, 8][1..] == [6, 7, 8] && [true, false, true, false][1..] == [false, true, false] && [-3] + [-5] == [-3, -5];
  }

  lemma BothStep12()
    ensures LeqFrom([-3], [4, 5, 6, 7, 8], [false, true, false, true, false]) == [[-3, -4], [-3, -5, -6], [-3, -5, -7, -8]]
  {
    BothStep11();
    assert [4, 5, 6, 7, 8][1..] == [5, 6, 7, 8] && [false, true, false, true, false][1..] == [true, false, true, false] && [-3] + [-4] == [-3, -4];
  }

  lemma BothStep13()
    ensures BothFrom([3, 4, 5, 6, 7, 8], [false, false, true, true, false, true], [true, false, true, false, true, false]) == [[3, 4, 5], [3, 4, 6], [3, 4, 7, 8], [-3, -4], [-3, -5, -6], [-3, -5, -7, -8]]
  {
    BothStep6();
    BothStep12();
    assert [3, 4, 5, 6, 7, 8][1..] == [4, 5, 6, 7, 8] && [false, false, true, true, false, true][1..] == [false, true, true, false, true] && [true, false, true, false, true, false][1..] == [false, true, false, true, false];
  }

  lemma BothStep14()
    ensures BothFrom([2, 3, 4, 5, 6, 7, 8], [false, false, false, true, true, false, true], [false, true, false, true, false, true, false]) == [[-2], [3, 4, 5], [3, 4, 6], [3, 4, 7, 8], [-3, -4], [-3, -5, -6], [-3, -5, -7, -8]]
  {
    BothStep13();
    assert [2, 3, 4, 5, 6, 7, 8][1..] == [3, 4, 5, 6, 7, 8] && [false, false, false, true, true, false, true][1..] == [false, false, true, true, false, true] && [false, true, false, true, false, true, false][1..] == [true, false, true, false, true, false];
  }

  lemma BothStep15()
    ensures BothFrom([1, 2, 3, 4, 5, 6, 7, 8], [false, false, false, false, true, true, false, true], [false, false, true, false, true, false, true, false]) == [[-1], [-2], [3, 4, 5], [3, 4, 6], [3, 4, 7, 8], [-3, -4], [-3, -5, -6], [-3, -5, -7, -8]]
  {
    BothStep14();
    assert [1, 2, 3, 4, 5, 6, 7, 8][1..] == [2, 3, 4, 5, 6, 7, 8] && [false, false, false, false, true, true, false, true][1..] == [false, false, false, true, true, false, true] && [false, false, true, false, true, false, true, false][1..] == [false, true, false, true, false, true, false];
  }

  lemma TestGeq()
    ensures Num(A13) == 13
    ensures GeqFrom([], X8, A13) == [[1, 2, 3, 4, 5], [1, 2, 3, 4, 6], [1, 2, 3, 4, 7, 8]]
  {
    GeqStep9();
  }

  lemma TestLeq()
    ensures Num(B42) == 42
    ensures LeqFrom([], X8, B42) == [[-1], [-2], [-3, -4], [-3, -5, -6], [-3, -5, -7, -8]]
  {
    LeqStep9();
  }

  /** The test compares after sorting; these are the same clauses in the order they are emitted. */
  lemma TestBoth()
    ensures NoHigher(A13, B42)
    ensures BothFrom(X8, A13, B42) ==
      [[-1], [-2], [3, 4, 5], [3, 4, 6], [3, 4, 7, 8], [-3, -4], [-3, -5, -6], [-3, -5, -7, -8]]
  {
    BothStep15();
  }
}
