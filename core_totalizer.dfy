/**
 * The totalizer of Bailleux and Boufkhad (lib/core/src/card/totalizer.rs):
 * the inputs start as one-literal unary counters in a queue; the two front
 * counters are merged into a fresh counter of their combined length, which
 * joins the back of the queue, until one counter is left. Bounds on the
 * number of true inputs then become unit clauses on that counter. The solver
 * the clauses go to is the library's clause encoder: a variable counter and
 * a clause list.
 */
module CoreTotalizer {
  import opened Semantics
  import opened Wrappers
  import opened CoreEncoder
  import opened Seqs

  /** `q` counts `c` in unary: exactly its first `c` literals are true. */
  predicate Unary(m: Model, q: seq<int>, c: nat)
  {
    c <= |q| && forall s :: 0 <= s < |q| ==> (LitTrue(m, q[s]) <==> s < c)
  }

  // ---------- one merge ----------

  /** The `c1` clause of cell `(alpha, beta)`: `alpha` of `a` and `beta` of `b` give `alpha + beta` of `r`. */
  function C1(a: seq<int>, b: seq<int>, r: seq<int>, alpha: nat, beta: nat): seq<seq<int>>
    requires alpha <= |a| && beta <= |b| && |r| == |a| + |b|
  {
    var sigma := alpha + beta;
    if sigma == 0 then []
    else if alpha == 0 then [[-b[beta - 1], r[sigma - 1]]]
    else if beta == 0 then [[-a[alpha - 1], r[sigma - 1]]]
    else [[-a[alpha - 1], -b[beta - 1], r[sigma - 1]]]
  }

  /** The `c2` clause: fewer than `alpha + 1` of `a` and `beta + 1` of `b` give fewer than `alpha + beta + 1` of `r`. */
  function C2(a: seq<int>, b: seq<int>, r: seq<int>, alpha: nat, beta: nat): seq<seq<int>>
    requires alpha <= |a| && beta <= |b| && |r| == |a| + |b|
  {
    var sigma := alpha + beta;
    if sigma == |a| + |b| then []
    else if alpha == |a| then [[b[beta], -r[sigma]]]
    else if beta == |b| then [[a[alpha], -r[sigma]]]
    else [[a[alpha], b[beta], -r[sigma]]]
  }

  /** Cells `(alpha, 0) .. (alpha, beta - 1)` of the inner loop. */
  function Cols(a: seq<int>, b: seq<int>, r: seq<int>, alpha: nat, beta: nat): seq<seq<int>>
    requires alpha <= |a| && beta <= |b| + 1 && |r| == |a| + |b|
  {
    if beta == 0 then [] else Cols(a, b, r, alpha, beta - 1) + C1(a, b, r, alpha, beta - 1) + C2(a, b, r, alpha, beta - 1)
  }

  /** Rows `0 .. alpha - 1` of the outer loop. */
  function Grid(a: seq<int>, b: seq<int>, r: seq<int>, alpha: nat): seq<seq<int>>
    requires alpha <= |a| + 1 && |r| == |a| + |b|
  {
    if alpha == 0 then [] else Grid(a, b, r, alpha - 1) + Cols(a, b, r, alpha - 1, |b| + 1)
  }

  /** All clauses of merging `a` and `b` into `r`. */
  function MergeClauses(a: seq<int>, b: seq<int>, r: seq<int>): seq<seq<int>>
    requires |r| == |a| + |b|
  {
    Grid(a, b, r, |a| + 1)
  }

  lemma {:induction false} ColsSat(m: Model, a: seq<int>, b: seq<int>, r: seq<int>, alpha: nat, beta: nat, k: nat)
    requires alpha <= |a| && k < beta <= |b| + 1 && |r| == |a| + |b|
    requires CnfSat(m, Cols(a, b, r, alpha, beta))
    ensures CnfSat(m, C1(a, b, r, alpha, k)) && CnfSat(m, C2(a, b, r, alpha, k))
  {
    var prev := Cols(a, b, r, alpha, beta - 1);
    CnfSatAppend(m, prev + C1(a, b, r, alpha, beta - 1), C2(a, b, r, alpha, beta - 1));
    CnfSatAppend(m, prev, C1(a, b, r, alpha, beta - 1));
    if k < beta - 1 {
      ColsSat(m, a, b, r, alpha, beta - 1, k);
    }
  }

  lemma {:induction false} GridSat(m: Model, a: seq<int>, b: seq<int>, r: seq<int>, alpha: nat, i: nat, k: nat)
    requires i < alpha <= |a| + 1 && k <= |b| && |r| == |a| + |b|
    requires CnfSat(m, Grid(a, b, r, alpha))
    ensures CnfSat(m, C1(a, b, r, i, k)) && CnfSat(m, C2(a, b, r, i, k))
  {
    CnfSatAppend(m, Grid(a, b, r, alpha - 1), Cols(a, b, r, alpha - 1, |b| + 1));
    if i < alpha - 1 {
      GridSat(m, a, b, r, alpha - 1, i, k);
    } else {
      ColsSat(m, a, b, r, i, |b| + 1, k);
    }
  }

  /** Every cell's clauses hold in a model of the merge. */
  lemma CellSat(m: Model, a: seq<int>, b: seq<int>, r: seq<int>, alpha: nat, beta: nat)
    requires alpha <= |a| && beta <= |b| && |r| == |a| + |b|
    requires CnfSat(m, MergeClauses(a, b, r))
    ensures CnfSat(m, C1(a, b, r, alpha, beta)) && CnfSat(m, C2(a, b, r, alpha, beta))
  {
    GridSat(m, a, b, r, |a| + 1, alpha, beta);
  }

  /** The inputs give at least `s + 1` true literals, so a `c1` clause makes `r[s]` true. */
  lemma MergeUp(m: Model, a: seq<int>, b: seq<int>, r: seq<int>, ca: nat, cb: nat, s: nat)
    requires |r| == |a| + |b| && NonZero(a) && NonZero(b)
    requires Unary(m, a, ca) && Unary(m, b, cb) && s < ca + cb
    requires CnfSat(m, MergeClauses(a, b, r))
    ensures LitTrue(m, r[s])
  {
    var alpha := if ca < s + 1 then ca else s + 1;
    var beta := s + 1 - alpha;
    CellSat(m, a, b, r, alpha, beta);
    var c := C1(a, b, r, alpha, beta);
    assert c[0] in c;
    if alpha == 0 {
      ClauseSat2(m, -b[beta - 1], r[s]);
      NegLit(m, b[beta - 1]);
    } else if beta == 0 {
      ClauseSat2(m, -a[alpha - 1], r[s]);
      NegLit(m, a[alpha - 1]);
    } else {
      ClauseSat3(m, -a[alpha - 1], -b[beta - 1], r[s]);
      NegLit(m, a[alpha - 1]);
      NegLit(m, b[beta - 1]);
    }
  }

  /** At most `s` inputs are true, so a `c2` clause makes `r[s]` false. */
  lemma MergeDown(m: Model, a: seq<int>, b: seq<int>, r: seq<int>, ca: nat, cb: nat, s: nat)
    requires |r| == |a| + |b| && NonZero(r)
    requires Unary(m, a, ca) && Unary(m, b, cb) && ca + cb <= s < |r|
    requires CnfSat(m, MergeClauses(a, b, r))
    ensures !LitTrue(m, r[s])
  {
    var alpha := if s < |b| + ca then ca else s - |b|;
    var beta := s - alpha;
    CellSat(m, a, b, r, alpha, beta);
    var c := C2(a, b, r, alpha, beta);
    assert c[0] in c;
    NegLit(m, r[s]);
    if alpha == |a| {
      ClauseSat2(m, b[beta], -r[s]);
    } else if beta == |b| {
      ClauseSat2(m, a[alpha], -r[s]);
    } else {
      ClauseSat3(m, a[alpha], b[beta], -r[s]);
    }
  }

  /** A model of the merge clauses makes `r` count `ca + cb` when `a` counts `ca` and `b` counts `cb`. */
  lemma MergeCounts(m: Model, a: seq<int>, b: seq<int>, r: seq<int>, ca: nat, cb: nat)
    requires |r| == |a| + |b| && NonZero(a) && NonZero(b) && NonZero(r)
    requires Unary(m, a, ca) && Unary(m, b, cb)
    requires CnfSat(m, MergeClauses(a, b, r))
    ensures Unary(m, r, ca + cb)
  {
    forall s | 0 <= s < |r|
      ensures LitTrue(m, r[s]) <==> s < ca + cb
    {
      if s < ca + cb {
        MergeUp(m, a, b, r, ca, cb, s);
      } else {
        MergeDown(m, a, b, r, ca, cb, s);
      }
    }
  }

  // ---------- the queue ----------

  /** `k` calls of `new_var` after `next`: the variables `next + 1 .. next + k`. */
  function Fresh(next: nat, k: nat): (r: seq<int>)
    ensures |r| == k
  {
    seq(k, i requires 0 <= i < k => next + 1 + i)
  }

  datatype Run = Run(out: seq<int>, clauses: seq<seq<int>>, next: nat)

  /** The `while queue.len() != 1` loop from `queue`, with `next` variables allocated so far. */
  function DeclareFrom(queue: seq<seq<int>>, next: nat): Run
    requires |queue| >= 1
    decreases |queue|
  {
    if |queue| == 1 then Run(queue[0], [], next)
    else
      var a, b := queue[0], queue[1];
      var r := Fresh(next, |a| + |b|);
      var rest := DeclareFrom(queue[2..] + [r], next + |a| + |b|);
      Run(rest.out, MergeClauses(a, b, r) + rest.clauses, rest.next)
  }

  lemma DeclareFromStep(queue: seq<seq<int>>, next: nat)
    requires |queue| >= 2
    ensures DeclareFrom(queue, next) ==
      var r := Fresh(next, |queue[0]| + |queue[1]|);
      var rest := DeclareFrom(queue[2..] + [r], next + |queue[0]| + |queue[1]|);
      Run(rest.out, MergeClauses(queue[0], queue[1], r) + rest.clauses, rest.next)
  {
  }

  function Singletons(xs: seq<int>): (q: seq<seq<int>>)
    ensures |q| == |xs|
  {
    seq(|xs|, i requires 0 <= i < |xs| => [xs[i]])
  }

  /** `declare`: the queue of one-literal counters; an empty input makes the `unwrap` panic. */
  function DeclareRun(inputs: seq<int>, next: nat): Run
    requires |inputs| >= 1
  {
    DeclareFrom(Singletons(inputs), next)
  }

  function LenSum(queue: seq<seq<int>>): nat
  {
    if |queue| == 0 then 0 else |queue[0]| + LenSum(queue[1..])
  }

  function Sum(cs: seq<nat>): nat
  {
    if |cs| == 0 then 0 else cs[0] + Sum(cs[1..])
  }

  lemma {:induction false} LenSumAppend(queue: seq<seq<int>>, r: seq<int>)
    ensures LenSum(queue + [r]) == LenSum(queue) + |r|
  {
    if |queue| > 0 {
      assert (queue + [r])[1..] == queue[1..] + [r];
      LenSumAppend(queue[1..], r);
    } else {
      assert ([] + [r])[1..] == [];
    }
  }

  lemma {:induction false} SumAppend(cs: seq<nat>, c: nat)
    ensures Sum(cs + [c]) == Sum(cs) + c
  {
    if |cs| > 0 {
      assert (cs + [c])[1..] == cs[1..] + [c];
      SumAppend(cs[1..], c);
    } else {
      assert ([] + [c])[1..] == [];
    }
  }

  /** The merges allocate one output per input, all fresh and consecutive. */
  lemma {:induction false} DeclareFromLength(queue: seq<seq<int>>, next: nat)
    requires |queue| >= 1
    ensures |DeclareFrom(queue, next).out| == LenSum(queue)
    decreases |queue|
  {
    if |queue| > 1 {
      var a, b := queue[0], queue[1];
      var r := Fresh(next, |a| + |b|);
      DeclareFromLength(queue[2..] + [r], next + |a| + |b|);
      LenSumAppend(queue[2..], r);
      assert queue[1..][1..] == queue[2..];
    } else {
      assert queue[1..] == [];
    }
  }

  /** The output of `declare` has one literal per input. */
  lemma DeclareLength(inputs: seq<int>, next: nat)
    requires |inputs| >= 1
    ensures |DeclareRun(inputs, next).out| == |inputs|
  {
    DeclareFromLength(Singletons(inputs), next);
    SingletonsLength(inputs);
  }

  lemma {:induction false} SingletonsLength(xs: seq<int>)
    ensures LenSum(Singletons(xs)) == |xs|
  {
    if |xs| > 0 {
      assert Singletons(xs)[1..] == Singletons(xs[1..]);
      SingletonsLength(xs[1..]);
    }
  }

  predicate AllNonZero(queue: seq<seq<int>>)
  {
    forall i :: 0 <= i < |queue| ==> NonZero(queue[i])
  }

  /** Each queued counter counts its entry of `counts`. */
  predicate Counted(m: Model, queue: seq<seq<int>>, counts: seq<nat>)
  {
    |counts| == |queue| && forall i :: 0 <= i < |queue| ==> Unary(m, queue[i], counts[i])
  }

  /** Popping two counters and pushing a new one keeps every queued counter counting its entry. */
  lemma QueueShift(m: Model, queue: seq<seq<int>>, counts: seq<nat>, r: seq<int>, c: nat)
    requires |queue| >= 2 && AllNonZero(queue) && NonZero(r) && Unary(m, r, c) && Counted(m, queue, counts)
    ensures AllNonZero(queue[2..] + [r]) && Counted(m, queue[2..] + [r], counts[2..] + [c])
  {
    var q2, c2 := queue[2..] + [r], counts[2..] + [c];
    forall i | 0 <= i < |q2|
      ensures Unary(m, q2[i], c2[i]) && NonZero(q2[i])
    {
      if i < |queue| - 2 {
        assert q2[i] == queue[i + 2] && c2[i] == counts[i + 2];
      }
    }
  }

  /** The surviving counter is made of inputs and fresh variables, none of them 0. */
  lemma {:induction false} DeclareFromNonZero(queue: seq<seq<int>>, next: nat)
    requires |queue| >= 1 && AllNonZero(queue)
    ensures NonZero(DeclareFrom(queue, next).out)
    decreases |queue|
  {
    if |queue| > 1 {
      var r := Fresh(next, |queue[0]| + |queue[1]|);
      var q2 := queue[2..] + [r];
      assert NonZero(r);
      assert forall i :: 0 <= i < |q2| - 1 ==> q2[i] == queue[i + 2];
      DeclareFromNonZero(q2, next + |queue[0]| + |queue[1]|);
      DeclareFromStep(queue, next);
    }
  }

  /** A model of all the clauses makes the surviving counter count the sum of the queue's counts. */
  lemma {:induction false} DeclareFromCounts(m: Model, queue: seq<seq<int>>, next: nat, counts: seq<nat>)
    requires |queue| >= 1 && AllNonZero(queue) && Counted(m, queue, counts)
    requires CnfSat(m, DeclareFrom(queue, next).clauses)
    ensures Unary(m, DeclareFrom(queue, next).out, Sum(counts))
    decreases |queue|
  {
    if |queue| == 1 {
      DeclareFromBase(m, queue, next, counts);
    } else {
      var r := Fresh(next, |queue[0]| + |queue[1]|);
      var q2, c2 := queue[2..] + [r], counts[2..] + [counts[0] + counts[1]];
      var rest := DeclareFrom(q2, next + |queue[0]| + |queue[1]|);
      DeclareFromStep(queue, next);
      CnfSatAppend(m, MergeClauses(queue[0], queue[1], r), rest.clauses);
      MergeIntoQueue(m, queue, counts, r);
      DeclareFromCounts(m, q2, next + |queue[0]| + |queue[1]|, c2);
      assert DeclareFrom(queue, next).out == rest.out;
    }
  }

  lemma DeclareFromBase(m: Model, queue: seq<seq<int>>, next: nat, counts: seq<nat>)
    requires |queue| == 1 && Counted(m, queue, counts)
    ensures Unary(m, DeclareFrom(queue, next).out, Sum(counts))
  {
    assert Sum(counts) == counts[0] + Sum(counts[1..]) && counts[1..] == [];
    assert Unary(m, queue[0], counts[0]);
  }

  /** One merge: the new counter counts the two it replaces, so the queue still adds up to the same total. */
  lemma MergeIntoQueue(m: Model, queue: seq<seq<int>>, counts: seq<nat>, r: seq<int>)
    requires |queue| >= 2 && AllNonZero(queue) && Counted(m, queue, counts)
    requires |r| == |queue[0]| + |queue[1]| && NonZero(r)
    requires CnfSat(m, MergeClauses(queue[0], queue[1], r))
    ensures AllNonZero(queue[2..] + [r]) && Counted(m, queue[2..] + [r], counts[2..] + [counts[0] + counts[1]])
    ensures Sum(counts[2..] + [counts[0] + counts[1]]) == Sum(counts)
  {
    assert Unary(m, queue[0], counts[0]) && Unary(m, queue[1], counts[1]);
    MergeCounts(m, queue[0], queue[1], r, counts[0], counts[1]);
    QueueShift(m, queue, counts, r, counts[0] + counts[1]);
    SumShift(counts);
  }

  lemma {:induction false} SumShift(counts: seq<nat>)
    requires |counts| >= 2
    ensures Sum(counts[2..] + [counts[0] + counts[1]]) == Sum(counts)
  {
    var rest, x := counts[2..], counts[0] + counts[1];
    SumAppend(rest, x);
    SumTwo(counts);
  }

  lemma {:induction false} SumTwo(counts: seq<nat>)
    requires |counts| >= 2
    ensures Sum(counts) == counts[0] + counts[1] + Sum(counts[2..])
  {
    var tail := counts[1..];
    assert tail[0] == counts[1] && tail[1..] == counts[2..];
  }

  function Indicators(m: Model, xs: seq<int>): (cs: seq<nat>)
    ensures |cs| == |xs|
  {
    seq(|xs|, i requires 0 <= i < |xs| => if LitTrue(m, xs[i]) then 1 else 0)
  }

  lemma {:induction false} IndicatorsSum(m: Model, xs: seq<int>)
    ensures Sum(Indicators(m, xs)) == TrueCount(m, xs)
  {
    if |xs| > 0 {
      var n := |xs| - 1;
      IndicatorsSum(m, xs[..n]);
      assert Indicators(m, xs) == Indicators(m, xs[..n]) + [Indicators(m, xs)[n]];
      SumAppend(Indicators(m, xs[..n]), Indicators(m, xs)[n]);
    }
  }

  /** In every model of the totalizer clauses the outputs count the true inputs in unary. */
  lemma DeclareCounts(m: Model, inputs: seq<int>, next: nat)
    requires |inputs| >= 1 && NonZero(inputs)
    requires CnfSat(m, DeclareRun(inputs, next).clauses)
    ensures Unary(m, DeclareRun(inputs, next).out, TrueCount(m, inputs))
  {
    var q := Singletons(inputs);
    var cs := Indicators(m, inputs);
    forall i | 0 <= i < |q|
      ensures Unary(m, q[i], cs[i]) && NonZero(q[i])
    {
      assert q[i] == [inputs[i]];
    }
    assert Counted(m, q, cs);
    DeclareFromCounts(m, q, next, cs);
    IndicatorsSum(m, inputs);
  }

  // ---------- the bounds ----------

  /** `declare_comparator_less_than`: `-out[i - 1]` for `i` from `hi` down to `lo`. */
  function UpperUnits(out: seq<int>, lo: nat, hi: nat): seq<seq<int>>
    requires 1 <= lo && hi <= |out|
    decreases hi + 1 - lo
  {
    if lo > hi then [] else UpperUnits(out, lo + 1, hi) + [[-out[lo - 1]]]
  }

  /** `declare_comparator_greater_than_or_equal`: `out[i - 1]` for `i` from `lo` up to `hi`. */
  function LowerUnits(out: seq<int>, lo: nat, hi: nat): seq<seq<int>>
    requires 1 <= lo && hi <= |out|
    decreases hi
  {
    if hi < lo then [] else LowerUnits(out, lo, hi - 1) + [[out[hi - 1]]]
  }

  /** On a unary counter the upper-bound units say "fewer than `lo`". */
  lemma {:induction false} UpperMeaning(m: Model, out: seq<int>, c: nat, lo: nat, hi: nat)
    requires 1 <= lo <= hi + 1 && hi <= |out| && NonZero(out) && Unary(m, out, c)
    ensures CnfSat(m, UpperUnits(out, lo, hi)) <==> (lo <= hi ==> c < lo)
    decreases hi + 1 - lo
  {
    if lo <= hi {
      UpperMeaning(m, out, c, lo + 1, hi);
      CnfSatAppend(m, UpperUnits(out, lo + 1, hi), [[-out[lo - 1]]]);
      CnfSatSingle(m, [-out[lo - 1]]);
      ClauseSatSingle(m, -out[lo - 1]);
      NegLit(m, out[lo - 1]);
    }
  }

  /** On a unary counter the lower-bound units say "at least `hi`". */
  lemma {:induction false} LowerMeaning(m: Model, out: seq<int>, c: nat, lo: nat, hi: nat)
    requires 1 <= lo <= hi + 1 && hi <= |out| && Unary(m, out, c)
    ensures CnfSat(m, LowerUnits(out, lo, hi)) <==> (lo <= hi ==> c >= hi)
    decreases hi
  {
    if lo <= hi {
      LowerMeaning(m, out, c, lo, hi - 1);
      CnfSatAppend(m, LowerUnits(out, lo, hi - 1), [[out[hi - 1]]]);
      CnfSatSingle(m, [out[hi - 1]]);
      ClauseSatSingle(m, out[hi - 1]);
    }
  }

  /**
   * A fresh totalizer with `upper_bound_less_than(ub)` and
   * `lower_bound_greater_than_or_equal(lb)` declared: in a model of the
   * merge clauses the unit clauses hold exactly when `lb <= count < ub`.
   */
  lemma DeclaredBounds(m: Model, inputs: seq<int>, next: nat, ub: nat, lb: nat)
    requires |inputs| >= 1 && NonZero(inputs) && 1 <= ub <= |inputs| && 1 <= lb <= |inputs|
    requires CnfSat(m, DeclareRun(inputs, next).clauses)
    ensures var out := DeclareRun(inputs, next).out;
      |out| == |inputs| &&
      (CnfSat(m, UpperUnits(out, ub, |out|) + LowerUnits(out, 1, lb)) <==> lb <= TrueCount(m, inputs) < ub)
  {
    var out := DeclareRun(inputs, next).out;
    DeclareLength(inputs, next);
    DeclareCounts(m, inputs, next);
    DeclareFromNonZero(Singletons(inputs), next);
    UpperMeaning(m, out, TrueCount(m, inputs), ub, |out|);
    LowerMeaning(m, out, TrueCount(m, inputs), 1, lb);
    CnfSatAppend(m, UpperUnits(out, ub, |out|), LowerUnits(out, 1, lb));
  }

  // ---------- the totalizer ----------

  class Totalizer {
    var outputVars: seq<int>
    var lowerBound: Option<nat>
    var upperBound: Option<nat>

    /** The declared bounds lie within the counter; a lower bound is at least 1. */
    predicate Valid()
      reads this
    {
      (upperBound.Some? ==> upperBound.value <= |outputVars|) &&
      (lowerBound.Some? ==> 1 <= lowerBound.value <= |outputVars|)
    }

    constructor (outputVars: seq<int>)
      ensures Valid() && this.outputVars == outputVars && lowerBound.None? && upperBound.None?
    {
      this.outputVars := outputVars;
      lowerBound := None;
      upperBound := None;
    }

    /** `declare`: merge the queue of counters down to one, allocating through `solver`. */
    static method Declare(solver: CnfEncoder, inputs: seq<int>) returns (t: Totalizer)
      requires |inputs| >= 1
      modifies solver
      ensures fresh(t) && t.Valid() && t.lowerBound.None? && t.upperBound.None?
      ensures t.outputVars == DeclareRun(inputs, old(solver.numVars)).out
      ensures solver.clauses == old(solver.clauses) + DeclareRun(inputs, old(solver.numVars)).clauses
      ensures solver.numVars == DeclareRun(inputs, old(solver.numVars)).next
    {
      ghost var run0 := DeclareRun(inputs, solver.numVars);
      ghost var c0 := solver.clauses;
      var queue := Singletons(inputs);
      ghost var done: seq<seq<int>> := [];
      while |queue| != 1
        invariant |queue| >= 1
        invariant solver.clauses == c0 + done
        invariant run0.out == DeclareFrom(queue, solver.numVars).out
        invariant run0.next == DeclareFrom(queue, solver.numVars).next
        invariant run0.clauses == done + DeclareFrom(queue, solver.numVars).clauses
        decreases |queue|
      {
        ghost var q0, n0, d0 := queue, solver.numVars, done;
        ghost var merged;
        queue, merged := MergeFront(solver, queue);
        DeclareFromStep(q0, n0);
        AppendAssoc(c0, d0, merged);
        AppendAssoc(d0, merged, DeclareFrom(queue, solver.numVars).clauses);
        done := d0 + merged;
      }
      DeclareLength(inputs, old(solver.numVars));
      t := new Totalizer(queue[0]);
    }

    /** One round of the loop: pop two counters, merge them into fresh variables, push the result. */
    static method MergeFront(solver: CnfEncoder, queue: seq<seq<int>>) returns (q: seq<seq<int>>, ghost merged: seq<seq<int>>)
      requires |queue| >= 2
      modifies solver
      ensures q == queue[2..] + [Fresh(old(solver.numVars), |queue[0]| + |queue[1]|)]
      ensures merged == MergeClauses(queue[0], queue[1], Fresh(old(solver.numVars), |queue[0]| + |queue[1]|))
      ensures solver.clauses == old(solver.clauses) + merged
      ensures solver.numVars == old(solver.numVars) + |queue[0]| + |queue[1]|
    {
      var a, b := queue[0], queue[1];
      var r := NewVars(solver, |a| + |b|);
      Merge(solver, a, b, r);
      q := queue[2..] + [r];
      merged := MergeClauses(a, b, r);
    }

    /** `k` calls of `new_var`. */
    static method NewVars(solver: CnfEncoder, k: nat) returns (r: seq<int>)
      modifies solver
      ensures r == Fresh(old(solver.numVars), k)
      ensures solver.numVars == old(solver.numVars) + k && solver.clauses == old(solver.clauses)
    {
      r := [];
      for i := 0 to k
        invariant r == Fresh(old(solver.numVars), i)
        invariant solver.numVars == old(solver.numVars) + i && solver.clauses == old(solver.clauses)
      {
        var v := solver.NewVar();
        r := r + [v];
      }
    }

    /** The clauses of one merge, row by row. */
    static method Merge(solver: CnfEncoder, a: seq<int>, b: seq<int>, r: seq<int>)
      requires |r| == |a| + |b|
      modifies solver
      ensures solver.clauses == old(solver.clauses) + MergeClauses(a, b, r) && solver.numVars == old(solver.numVars)
    {
      for alpha := 0 to |a| + 1
        invariant solver.clauses == old(solver.clauses) + Grid(a, b, r, alpha) && solver.numVars == old(solver.numVars)
      {
        MergeRow(solver, a, b, r, alpha);
        AppendAssoc(old(solver.clauses), Grid(a, b, r, alpha), Cols(a, b, r, alpha, |b| + 1));
      }
    }

    /** The inner loop over `beta` for one `alpha`. */
    static method MergeRow(solver: CnfEncoder, a: seq<int>, b: seq<int>, r: seq<int>, alpha: nat)
      requires |r| == |a| + |b| && alpha <= |a|
      modifies solver
      ensures solver.clauses == old(solver.clauses) + Cols(a, b, r, alpha, |b| + 1) && solver.numVars == old(solver.numVars)
    {
      for beta := 0 to |b| + 1
        invariant solver.clauses == old(solver.clauses) + Cols(a, b, r, alpha, beta) && solver.numVars == old(solver.numVars)
      {
        ghost var before := solver.clauses;
        MergeCell(solver, a, b, r, alpha, beta);
        AppendAssoc(before, C1(a, b, r, alpha, beta), C2(a, b, r, alpha, beta));
        AppendAssoc(old(solver.clauses), Cols(a, b, r, alpha, beta), C1(a, b, r, alpha, beta) + C2(a, b, r, alpha, beta));
        AppendAssoc(Cols(a, b, r, alpha, beta), C1(a, b, r, alpha, beta), C2(a, b, r, alpha, beta));
      }
    }

    /** One cell: its `c1` clause, then its `c2` clause. */
    static method MergeCell(solver: CnfEncoder, a: seq<int>, b: seq<int>, r: seq<int>, alpha: nat, beta: nat)
      requires |r| == |a| + |b| && alpha <= |a| && beta <= |b|
      modifies solver
      ensures solver.clauses == old(solver.clauses) + C1(a, b, r, alpha, beta) + C2(a, b, r, alpha, beta)
      ensures solver.numVars == old(solver.numVars)
    {
      var sigma := alpha + beta;
      if sigma == 0 {
      } else if alpha == 0 {
        solver.AddClause([-b[beta - 1], r[sigma - 1]]);
      } else if beta == 0 {
        solver.AddClause([-a[alpha - 1], r[sigma - 1]]);
      } else {
        solver.AddClause([-a[alpha - 1], -b[beta - 1], r[sigma - 1]]);
      }
      ghost var mid := solver.clauses;
      if sigma == |a| + |b| {
      } else if alpha == |a| {
        solver.AddClause([b[beta], -r[sigma]]);
      } else if beta == |b| {
        solver.AddClause([a[alpha], -r[sigma]]);
      } else {
        solver.AddClause([a[alpha], b[beta], -r[sigma]]);
      }
      assert solver.clauses == mid + C2(a, b, r, alpha, beta);
    }

    /** `declare_upper_bound_less_than`: the `assert!` demands a strictly smaller bound. */
    method DeclareUpperBoundLessThan(solver: CnfEncoder, newUb: nat)
      requires Valid() && (upperBound.Some? ==> newUb < upperBound.value)
      requires 1 <= newUb <= |outputVars|
      modifies this, solver
      ensures Valid() && upperBound == Some(newUb)
      ensures outputVars == old(outputVars) && lowerBound == old(lowerBound)
      ensures solver.clauses == old(solver.clauses) + UpperUnits(outputVars, newUb, old(upperBound).UnwrapOr(|outputVars|))
      ensures solver.numVars == old(solver.numVars)
    {
      DeclareComparatorLessThan(solver, newUb);
    }

    method DeclareUpperBoundLessThanOrEqual(solver: CnfEncoder, newUb: nat)
      requires Valid() && (upperBound.Some? ==> newUb + 1 < upperBound.value)
      requires newUb + 1 <= |outputVars|
      modifies this, solver
      ensures Valid() && upperBound == Some(newUb + 1)
      ensures outputVars == old(outputVars) && lowerBound == old(lowerBound)
      ensures solver.clauses == old(solver.clauses) + UpperUnits(outputVars, newUb + 1, old(upperBound).UnwrapOr(|outputVars|))
      ensures solver.numVars == old(solver.numVars)
    {
      DeclareUpperBoundLessThan(solver, newUb + 1);
    }

    method DeclareLowerBoundGreaterThan(solver: CnfEncoder, newLb: nat)
      requires Valid() && (lowerBound.Some? ==> newLb + 1 >= lowerBound.value)
      requires newLb + 1 <= |outputVars|
      modifies this, solver
      ensures Valid() && lowerBound == Some(newLb + 1)
      ensures outputVars == old(outputVars) && upperBound == old(upperBound)
      ensures solver.clauses == old(solver.clauses) + LowerUnits(outputVars, old(lowerBound).UnwrapOr(1), newLb + 1)
      ensures solver.numVars == old(solver.numVars)
    {
      DeclareLowerBoundGreaterThanOrEqual(solver, newLb + 1);
    }

    /** `declare_lower_bound_greater_than_or_equal`: the `assert!` demands a bound no smaller than before. */
    method DeclareLowerBoundGreaterThanOrEqual(solver: CnfEncoder, newLb: nat)
      requires Valid() && (lowerBound.Some? ==> newLb >= lowerBound.value)
      requires 1 <= newLb <= |outputVars|
      modifies this, solver
      ensures Valid() && lowerBound == Some(newLb)
      ensures outputVars == old(outputVars) && upperBound == old(upperBound)
      ensures solver.clauses == old(solver.clauses) + LowerUnits(outputVars, old(lowerBound).UnwrapOr(1), newLb)
      ensures solver.numVars == old(solver.numVars)
    {
      DeclareComparatorGreaterThanOrEqual(solver, newLb);
    }

    /**
     * `declare_comparator_less_than`: `ub` must lie within the counter, and
     * `ub == 0` would make `i - 1` underflow on the last iteration.
     */
    method DeclareComparatorLessThan(solver: CnfEncoder, ub: nat)
      requires Valid() && 1 <= ub <= |outputVars|
      modifies this, solver
      ensures Valid() && upperBound == Some(ub)
      ensures outputVars == old(outputVars) && lowerBound == old(lowerBound)
      ensures solver.clauses == old(solver.clauses) + UpperUnits(outputVars, ub, old(upperBound).UnwrapOr(|outputVars|))
      ensures solver.numVars == old(solver.numVars)
    {
      var max := upperBound.UnwrapOr(|outputVars|);
      upperBound := Some(ub);
      var out := outputVars;
      ghost var c0 := solver.clauses;
      var i := max;
      while i >= ub
        invariant if max < ub then i == max else ub - 1 <= i <= max
        invariant solver.clauses == c0 + UpperUnits(out, i + 1, max) && solver.numVars == old(solver.numVars)
        invariant outputVars == out && upperBound == Some(ub) && lowerBound == old(lowerBound)
        decreases i
      {
        solver.AddClause([-out[i - 1]]);
        i := i - 1;
      }
    }

    /** `declare_comparator_greater_than_or_equal`: the `assert!` demands `lb >= 1`. */
    method DeclareComparatorGreaterThanOrEqual(solver: CnfEncoder, lb: nat)
      requires Valid() && 1 <= lb <= |outputVars|
      modifies this, solver
      ensures Valid() && lowerBound == Some(lb)
      ensures outputVars == old(outputVars) && upperBound == old(upperBound)
      ensures solver.clauses == old(solver.clauses) + LowerUnits(outputVars, old(lowerBound).UnwrapOr(1), lb)
      ensures solver.numVars == old(solver.numVars)
    {
      var min := lowerBound.UnwrapOr(1);
      lowerBound := Some(lb);
      var out := outputVars;
      ghost var c0 := solver.clauses;
      var i := min;
      while i <= lb
        invariant if lb < min then i == min else min <= i <= lb + 1
        invariant solver.clauses == c0 + LowerUnits(out, min, i - 1) && solver.numVars == old(solver.numVars)
        invariant outputVars == out && lowerBound == Some(lb) && upperBound == old(upperBound)
        decreases lb + 1 - i
      {
        solver.AddClause([out[i - 1]]);
        i := i + 1;
      }
    }
  }
}
