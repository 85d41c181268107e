/**
 * Clause derivation from the hard cubes of a backdoor
 * (examples/backdoor/src/derivation.rs, `derive_clauses`). The cubes assign
 * the backdoor variables, position by position; a position that is never
 * positive (never negative) yields a unit clause, and for two positions
 * that are not units a sign combination that never occurs yields the
 * binary clause excluding it.
 *
 * The model has three layers: the counts the source gathers, as functions
 * of the cubes (`Tally`, `PairTally`); the order in which clauses are
 * emitted from those counts (`Emitted`); and the method `DeriveClauses`,
 * which follows the source's counting loops over arrays and is proved to
 * return `Derived(hard)`. `count_pair`, a flat vector indexed `i * n + j`,
 * is an `n` by `n` matrix here.
 */
module BackdoorDerivation {
  import opened SatLit

  /** The input `derive_clauses` expects: at least one cube, all as long as the first. */
  predicate Cubes(hard: seq<seq<Lit>>)
  {
    |hard| >= 1 && forall k :: 0 <= k < |hard| ==> |hard[k]| == |hard[0]|
  }

  /** Every cube has at least `n` literals. */
  predicate Wide(cubes: seq<seq<Lit>>, n: nat)
  {
    forall k :: 0 <= k < |cubes| ==> n <= |cubes[k]|
  }

  /** The cubes put the same variable at each position. */
  predicate Aligned(hard: seq<seq<Lit>>)
    requires Cubes(hard)
  {
    forall k, i :: 0 <= k < |hard| && 0 <= i < |hard[0]| ==> Var(hard[k][i]) == Var(hard[0][i])
  }

  /** The positions of the first cube hold distinct variables. */
  predicate DistinctVars(hard: seq<seq<Lit>>)
    requires Cubes(hard)
  {
    forall i, j :: 0 <= i < j < |hard[0]| ==> Var(hard[0][i]) != Var(hard[0][j])
  }

  // ---------- the counts ----------

  /** The number of the first `m` cubes whose literal at position `i` has polarity `negated`. */
  function CountUpTo(cubes: seq<seq<Lit>>, m: nat, i: nat, negated: bool): nat
    requires m <= |cubes|
  {
    if m == 0 then 0
    else CountUpTo(cubes, m - 1, i, negated) + (if i < |cubes[m - 1]| && Negated(cubes[m - 1][i]) == negated then 1 else 0)
  }

  /** The number of cubes whose literal at position `i` has polarity `negated`. */
  function Count(cubes: seq<seq<Lit>>, i: nat, negated: bool): nat
  {
    CountUpTo(cubes, |cubes|, i, negated)
  }

  /** The number of the first `m` cubes with polarity `x` at position `i` and `y` at position `j`. */
  function PairCountUpTo(cubes: seq<seq<Lit>>, m: nat, i: nat, j: nat, x: bool, y: bool): nat
    requires m <= |cubes|
  {
    if m == 0 then 0
    else
      var c := cubes[m - 1];
      PairCountUpTo(cubes, m - 1, i, j, x, y) +
      (if i < |c| && j < |c| && Negated(c[i]) == x && Negated(c[j]) == y then 1 else 0)
  }

  /** The number of cubes with polarity `x` at position `i` and `y` at position `j`. */
  function PairCount(cubes: seq<seq<Lit>>, i: nat, j: nat, x: bool, y: bool): nat
  {
    PairCountUpTo(cubes, |cubes|, i, j, x, y)
  }

  lemma {:induction false} CountUpToZero(cubes: seq<seq<Lit>>, m: nat, i: nat, negated: bool)
    requires m <= |cubes| && Wide(cubes, i + 1)
    ensures CountUpTo(cubes, m, i, negated) == 0 <==> forall k :: 0 <= k < m ==> Negated(cubes[k][i]) != negated
  {
    if m > 0 {
      CountUpToZero(cubes, m - 1, i, negated);
    }
  }

  /** A count is zero exactly when no cube has that polarity there. */
  lemma CountZero(cubes: seq<seq<Lit>>, i: nat, negated: bool)
    requires Wide(cubes, i + 1)
    ensures Count(cubes, i, negated) == 0 <==> forall k :: 0 <= k < |cubes| ==> Negated(cubes[k][i]) != negated
  {
    CountUpToZero(cubes, |cubes|, i, negated);
  }

  lemma {:induction false} PairCountUpToZero(cubes: seq<seq<Lit>>, m: nat, i: nat, j: nat, x: bool, y: bool)
    requires m <= |cubes| && Wide(cubes, i + 1) && Wide(cubes, j + 1)
    ensures PairCountUpTo(cubes, m, i, j, x, y) == 0 <==>
      forall k :: 0 <= k < m ==> !(Negated(cubes[k][i]) == x && Negated(cubes[k][j]) == y)
  {
    if m > 0 {
      PairCountUpToZero(cubes, m - 1, i, j, x, y);
    }
  }

  /** A pair count is zero exactly when no cube has that sign combination there. */
  lemma PairCountZero(cubes: seq<seq<Lit>>, i: nat, j: nat, x: bool, y: bool)
    requires Wide(cubes, i + 1) && Wide(cubes, j + 1)
    ensures PairCount(cubes, i, j, x, y) == 0 <==>
      forall k :: 0 <= k < |cubes| ==> !(Negated(cubes[k][i]) == x && Negated(cubes[k][j]) == y)
  {
    PairCountUpToZero(cubes, |cubes|, i, j, x, y);
  }

  /** The four counters of a pair: pos-pos, pos-neg, neg-pos, neg-neg. */
  type Quad = (nat, nat, nat, nat)

  /** The counter of `q` for polarity `x` first and `y` second. */
  function Pick(q: Quad, x: bool, y: bool): nat
  {
    if !x && !y then q.0 else if !x then q.1 else if !y then q.2 else q.3
  }

  /** The four counters of the pair `i`, `j` over the first `m` cubes. */
  function PairQuadUpTo(hard: seq<seq<Lit>>, m: nat, i: nat, j: nat): (q: Quad)
    requires m <= |hard|
    ensures forall x: bool, y: bool :: Pick(q, x, y) == PairCountUpTo(hard, m, i, j, x, y)
  {
    (PairCountUpTo(hard, m, i, j, false, false), PairCountUpTo(hard, m, i, j, false, true),
     PairCountUpTo(hard, m, i, j, true, false), PairCountUpTo(hard, m, i, j, true, true))
  }

  /** The variables at the positions of the first cube. */
  function Vars(hard: seq<seq<Lit>>): (vars: seq<u32>)
    requires Cubes(hard)
    ensures |vars| == |hard[0]|
    ensures forall i :: 0 <= i < |vars| ==> vars[i] == Var(hard[0][i]) && vars[i] as int <= I32Max
  {
    seq(|hard[0]|, i requires 0 <= i < |hard[0]| => Var(hard[0][i]))
  }

  /** `count` once every cube is counted: per position, the non-negated and the negated occurrences. */
  function Tally(hard: seq<seq<Lit>>): (t: seq<(nat, nat)>)
    requires Cubes(hard)
    ensures |t| == |hard[0]|
    ensures forall i :: 0 <= i < |t| ==> t[i] == (Count(hard, i, false), Count(hard, i, true))
  {
    seq(|hard[0]|, i requires 0 <= i => (Count(hard, i, false), Count(hard, i, true)))
  }

  /** `count_pair` once every cube is counted. */
  function PairTally(hard: seq<seq<Lit>>): (p: seq<seq<Quad>>)
    requires Cubes(hard)
    ensures |p| == |hard[0]| && forall i :: 0 <= i < |p| ==> |p[i]| == |hard[0]|
    ensures forall i, j :: 0 <= i < |p| && 0 <= j < |p| ==> p[i][j] == PairQuadUpTo(hard, |hard|, i, j)
  {
    seq(|hard[0]|, i requires 0 <= i => seq(|hard[0]|, j requires 0 <= j => PairQuadUpTo(hard, |hard|, i, j)))
  }

  // ---------- the clauses emitted from the counts ----------

  /** A position whose literal has one polarity in every cube. */
  predicate IsUnit(c: (nat, nat))
  {
    c.0 == 0 || c.1 == 0
  }

  /** The units of a position: `-v` when never positive, then `v` when never negative. */
  function UnitsAt(v: u32, c: (nat, nat)): seq<seq<Lit>>
  {
    (if c.0 == 0 then [[New(v, true)]] else []) + (if c.1 == 0 then [[New(v, false)]] else [])
  }

  /** The units of the positions before `k`, in order. */
  function Units(vars: seq<u32>, count: seq<(nat, nat)>, k: nat): seq<seq<Lit>>
    requires |count| == |vars| && k <= |vars|
  {
    if k == 0 then [] else Units(vars, count, k - 1) + UnitsAt(vars[k - 1], count[k - 1])
  }

  /** The clause excluding polarity `x` of `a` with `y` of `b`, when its counter is zero. */
  function PairClause(a: u32, b: u32, q: Quad, x: bool, y: bool): seq<seq<Lit>>
  {
    if Pick(q, x, y) == 0 then [[New(a, !x), New(b, !y)]] else []
  }

  /** The clauses of a pair, in the order pp, pn, np, nn. */
  function PairsAt(a: u32, b: u32, q: Quad): seq<seq<Lit>>
  {
    PairClause(a, b, q, false, false) + PairClause(a, b, q, false, true) +
    PairClause(a, b, q, true, false) + PairClause(a, b, q, true, true)
  }

  /** `block[i][j]` holds the clauses of the pair `i`, `j`, one entry per pair of positions. */
  predicate Square(count: seq<(nat, nat)>, block: seq<seq<seq<seq<Lit>>>>)
  {
    |block| == |count| && forall i :: 0 <= i < |block| ==> |block[i]| == |count|
  }

  /** The clauses of the pairs `i`, `j` with `i < j < k` and `j` no unit. */
  function RowPairs(count: seq<(nat, nat)>, block: seq<seq<seq<seq<Lit>>>>, i: nat, k: nat): seq<seq<Lit>>
    requires Square(count, block) && i < |count| && k <= |count|
  {
    if k <= i + 1 then []
    else RowPairs(count, block, i, k - 1) + (if IsUnit(count[k - 1]) then [] else block[i][k - 1])
  }

  /** The binary clauses of the rows before `k` that are no unit. */
  function Binaries(count: seq<(nat, nat)>, block: seq<seq<seq<seq<Lit>>>>, k: nat): seq<seq<Lit>>
    requires Square(count, block) && k <= |count|
  {
    if k == 0 then []
    else Binaries(count, block, k - 1) + (if IsUnit(count[k - 1]) then [] else RowPairs(count, block, k - 1, |count|))
  }

  /** The clauses of every pair of positions. */
  function Blocks(vars: seq<u32>, pair: seq<seq<Quad>>): (block: seq<seq<seq<seq<Lit>>>>)
    requires |pair| == |vars| && forall i :: 0 <= i < |pair| ==> |pair[i]| == |vars|
    ensures |block| == |vars| && forall i :: 0 <= i < |block| ==> |block[i]| == |vars|
    ensures forall i, j :: 0 <= i < |vars| && 0 <= j < |vars| ==> block[i][j] == PairsAt(vars[i], vars[j], pair[i][j])
  {
    seq(|vars|, i requires 0 <= i < |vars| => seq(|vars|, j requires 0 <= j < |vars| => PairsAt(vars[i], vars[j], pair[i][j])))
  }

  /** The units, then the binary clauses. */
  function Emitted(vars: seq<u32>, count: seq<(nat, nat)>, block: seq<seq<seq<seq<Lit>>>>): seq<seq<Lit>>
    requires |count| == |vars| && Square(count, block)
  {
    Units(vars, count, |vars|) + Binaries(count, block, |vars|)
  }

  /** The clauses of every pair of positions of the cubes. */
  function PairBlocks(hard: seq<seq<Lit>>): (block: seq<seq<seq<seq<Lit>>>>)
    requires Cubes(hard)
    ensures Square(Tally(hard), block)
    ensures forall i, j :: 0 <= i < |hard[0]| && 0 <= j < |hard[0]| ==>
      block[i][j] == PairsAt(Var(hard[0][i]), Var(hard[0][j]), PairTally(hard)[i][j])
  {
    Blocks(Vars(hard), PairTally(hard))
  }

  /** What `derive_clauses` returns. */
  function Derived(hard: seq<seq<Lit>>): seq<seq<Lit>>
    requires Cubes(hard)
  {
    Emitted(Vars(hard), Tally(hard), PairBlocks(hard))
  }

  // ---------- which clauses are emitted ----------

  lemma UnitsAtMember(v: u32, c: (nat, nat), clause: seq<Lit>)
    requires v as int <= I32Max
    ensures clause in UnitsAt(v, c) <==> (clause == [New(v, true)] && c.0 == 0) || (clause == [New(v, false)] && c.1 == 0)
  {
    NewRoundTrip(v, true);
    NewRoundTrip(v, false);
  }

  lemma {:induction false} UnitsIn(vars: seq<u32>, count: seq<(nat, nat)>, k: nat, i: nat, c: seq<Lit>)
    requires |count| == |vars| && i < k <= |vars| && c in UnitsAt(vars[i], count[i])
    ensures c in Units(vars, count, k)
  {
    if i < k - 1 {
      UnitsIn(vars, count, k - 1, i, c);
    }
  }

  lemma {:induction false} UnitsFrom(vars: seq<u32>, count: seq<(nat, nat)>, k: nat, c: seq<Lit>) returns (i: nat)
    requires |count| == |vars| && k <= |vars| && c in Units(vars, count, k)
    ensures i < k && c in UnitsAt(vars[i], count[i])
  {
    if c in Units(vars, count, k - 1) {
      i := UnitsFrom(vars, count, k - 1, c);
    } else {
      i := k - 1;
    }
  }

  lemma PairsAtMember(a: u32, b: u32, q: Quad, c: seq<Lit>)
    requires a as int <= I32Max && b as int <= I32Max
    ensures c in PairsAt(a, b, q) <==> exists x: bool, y: bool :: c == [New(a, !x), New(b, !y)] && Pick(q, x, y) == 0
  {
    NewRoundTrip(a, true);
    NewRoundTrip(a, false);
    NewRoundTrip(b, true);
    NewRoundTrip(b, false);
    if c in PairsAt(a, b, q) {
      if c in PairClause(a, b, q, false, false) {
        assert c == [New(a, !false), New(b, !false)];
      } else if c in PairClause(a, b, q, false, true) {
        assert c == [New(a, !false), New(b, !true)];
      } else if c in PairClause(a, b, q, true, false) {
        assert c == [New(a, !true), New(b, !false)];
      } else {
        assert c == [New(a, !true), New(b, !true)];
      }
    }
  }

  lemma {:induction false} RowPairsIn(count: seq<(nat, nat)>, block: seq<seq<seq<seq<Lit>>>>, i: nat, k: nat, j: nat, c: seq<Lit>)
    requires Square(count, block) && i < j < k <= |count|
    requires !IsUnit(count[j]) && c in block[i][j]
    ensures c in RowPairs(count, block, i, k)
  {
    if j < k - 1 {
      RowPairsIn(count, block, i, k - 1, j, c);
    }
  }

  lemma {:induction false} RowPairsFrom(count: seq<(nat, nat)>, block: seq<seq<seq<seq<Lit>>>>, i: nat, k: nat, c: seq<Lit>)
    returns (j: nat)
    requires Square(count, block) && i < |count| && k <= |count| && c in RowPairs(count, block, i, k)
    ensures i < j < k && !IsUnit(count[j]) && c in block[i][j]
  {
    if c in RowPairs(count, block, i, k - 1) {
      j := RowPairsFrom(count, block, i, k - 1, c);
    } else {
      j := k - 1;
    }
  }

  lemma {:induction false} BinariesIn(count: seq<(nat, nat)>, block: seq<seq<seq<seq<Lit>>>>, k: nat, i: nat, j: nat, c: seq<Lit>)
    requires Square(count, block) && i < k <= |count| && i < j < |count|
    requires !IsUnit(count[i]) && !IsUnit(count[j]) && c in block[i][j]
    ensures c in Binaries(count, block, k)
  {
    if i < k - 1 {
      BinariesIn(count, block, k - 1, i, j, c);
    } else {
      RowPairsIn(count, block, i, |count|, j, c);
    }
  }

  lemma {:induction false} BinariesFrom(count: seq<(nat, nat)>, block: seq<seq<seq<seq<Lit>>>>, k: nat, c: seq<Lit>)
    returns (i: nat, j: nat)
    requires Square(count, block) && k <= |count| && c in Binaries(count, block, k)
    ensures i < k && i < j < |count| && !IsUnit(count[i]) && !IsUnit(count[j]) && c in block[i][j]
  {
    if c in Binaries(count, block, k - 1) {
      i, j := BinariesFrom(count, block, k - 1, c);
    } else {
      i := k - 1;
      j := RowPairsFrom(count, block, i, |count|, c);
    }
  }

  /** Every clause in `clauses` has `n` literals. */
  predicate AllOfLength(clauses: seq<seq<Lit>>, n: nat)
  {
    forall p :: 0 <= p < |clauses| ==> |clauses[p]| == n
  }

  lemma AllOfLengthAppend(a: seq<seq<Lit>>, b: seq<seq<Lit>>, n: nat)
    requires AllOfLength(a, n) && AllOfLength(b, n)
    ensures AllOfLength(a + b, n)
  {
    forall p | 0 <= p < |a + b|
      ensures |(a + b)[p]| == n
    {
      if p < |a| {
        assert (a + b)[p] == a[p];
      } else {
        assert (a + b)[p] == b[p - |a|];
      }
    }
  }

  lemma {:induction false} UnitsShape(vars: seq<u32>, count: seq<(nat, nat)>, k: nat)
    requires |count| == |vars| && k <= |vars|
    ensures AllOfLength(Units(vars, count, k), 1)
  {
    if k > 0 {
      UnitsShape(vars, count, k - 1);
      AllOfLengthAppend(Units(vars, count, k - 1), UnitsAt(vars[k - 1], count[k - 1]), 1);
    }
  }

  lemma PairsAtShape(a: u32, b: u32, q: Quad)
    ensures AllOfLength(PairsAt(a, b, q), 2)
  {
    var p0, p1, p2, p3 := PairClause(a, b, q, false, false), PairClause(a, b, q, false, true),
      PairClause(a, b, q, true, false), PairClause(a, b, q, true, true);
    AllOfLengthAppend(p0, p1, 2);
    AllOfLengthAppend(p0 + p1, p2, 2);
    AllOfLengthAppend(p0 + p1 + p2, p3, 2);
  }

  /** Every block holds clauses of `n` literals. */
  predicate BlocksOfLength(block: seq<seq<seq<seq<Lit>>>>, n: nat)
  {
    forall i, j :: 0 <= i < |block| && 0 <= j < |block[i]| ==> AllOfLength(block[i][j], n)
  }

  lemma {:induction false} RowPairsShape(count: seq<(nat, nat)>, block: seq<seq<seq<seq<Lit>>>>, i: nat, k: nat, n: nat)
    requires Square(count, block) && i < |count| && k <= |count| && BlocksOfLength(block, n)
    ensures AllOfLength(RowPairs(count, block, i, k), n)
  {
    if k > i + 1 {
      RowPairsShape(count, block, i, k - 1, n);
      AllOfLengthAppend(RowPairs(count, block, i, k - 1), if IsUnit(count[k - 1]) then [] else block[i][k - 1], n);
    }
  }

  lemma {:induction false} BinariesShape(count: seq<(nat, nat)>, block: seq<seq<seq<seq<Lit>>>>, k: nat, n: nat)
    requires Square(count, block) && k <= |count| && BlocksOfLength(block, n)
    ensures AllOfLength(Binaries(count, block, k), n)
  {
    if k > 0 {
      BinariesShape(count, block, k - 1, n);
      RowPairsShape(count, block, k - 1, |count|, n);
      AllOfLengthAppend(Binaries(count, block, k - 1),
        if IsUnit(count[k - 1]) then [] else RowPairs(count, block, k - 1, |count|), n);
    }
  }

  // ---------- what the derived clauses mean ----------

  lemma PairBlocksShape(hard: seq<seq<Lit>>)
    requires Cubes(hard)
    ensures BlocksOfLength(PairBlocks(hard), 2)
  {
    var block := PairBlocks(hard);
    forall i, j | 0 <= i < |block| && 0 <= j < |block[i]|
      ensures AllOfLength(block[i][j], 2)
    {
      PairsAtShape(Var(hard[0][i]), Var(hard[0][j]), PairTally(hard)[i][j]);
    }
  }

  /** Only units and binary clauses are derived, the units first. */
  lemma DerivedShape(hard: seq<seq<Lit>>)
    requires Cubes(hard)
    ensures forall p :: 0 <= p < |Derived(hard)| ==> 1 <= |Derived(hard)[p]| <= 2
    ensures forall p, q :: 0 <= p < q < |Derived(hard)| ==> |Derived(hard)[p]| <= |Derived(hard)[q]|
  {
    var vars, count, block := Vars(hard), Tally(hard), PairBlocks(hard);
    UnitsShape(vars, count, |vars|);
    PairBlocksShape(hard);
    BinariesShape(count, block, |vars|, 2);
    var u, b := Units(vars, count, |vars|), Binaries(count, block, |vars|);
    assert Derived(hard) == u + b;
    forall p | 0 <= p < |u + b|
      ensures |(u + b)[p]| == (if p < |u| then 1 else 2)
    {
      if p < |u| {
        assert (u + b)[p] == u[p];
      } else {
        assert (u + b)[p] == b[p - |u|];
      }
    }
  }

  /** Position `i` has both polarities among the cubes, so it yields no unit. */
  predicate Mixed(hard: seq<seq<Lit>>, i: nat)
  {
    Count(hard, i, false) > 0 && Count(hard, i, true) > 0
  }

  /** The unit `[l]` where `l` has polarity `negated` at position `i`, and no cube has the opposite one there. */
  predicate UnitOf(hard: seq<seq<Lit>>, c: seq<Lit>, i: nat, negated: bool)
    requires Cubes(hard)
  {
    i < |hard[0]| && c == [New(Var(hard[0][i]), negated)] && Count(hard, i, !negated) == 0
  }

  /** The clause excluding polarity `x` at position `i` with `y` at `j`, a combination no cube has. */
  predicate PairOf(hard: seq<seq<Lit>>, c: seq<Lit>, i: nat, j: nat, x: bool, y: bool)
    requires Cubes(hard)
  {
    i < j < |hard[0]| && c == [New(Var(hard[0][i]), !x), New(Var(hard[0][j]), !y)] && PairCount(hard, i, j, x, y) == 0
  }

  /**
   * Nothing else is derived: a derived clause is a unit of some position, or
   * the clause of a sign combination no cube has at positions `i < j` that
   * are both no unit.
   */
  lemma DerivedOnly(hard: seq<seq<Lit>>, c: seq<Lit>)
    requires Cubes(hard) && c in Derived(hard)
    ensures (exists i: nat, negated: bool :: UnitOf(hard, c, i, negated)) ||
      (exists i: nat, j: nat, x: bool, y: bool :: Mixed(hard, i) && Mixed(hard, j) && PairOf(hard, c, i, j, x, y))
  {
    var vars, count, block := Vars(hard), Tally(hard), PairBlocks(hard);
    var u, b := Units(vars, count, |vars|), Binaries(count, block, |vars|);
    assert Derived(hard) == u + b;
    if c in u {
      var i := UnitsFrom(vars, count, |vars|, c);
      UnitsAtMember(vars[i], count[i], c);
      if c == [New(vars[i], true)] && count[i].0 == 0 {
        assert UnitOf(hard, c, i, true);
      } else {
        assert UnitOf(hard, c, i, false);
      }
    } else {
      var i, j := BinariesFrom(count, block, |vars|, c);
      var q := PairTally(hard)[i][j];
      PairsAtMember(vars[i], vars[j], q, c);
      var x, y :| c == [New(vars[i], !x), New(vars[j], !y)] && Pick(q, x, y) == 0;
      assert PairOf(hard, c, i, j, x, y);
    }
  }

  /** A clause of one literal is no pair clause. */
  lemma NotInPairsAt(a: u32, b: u32, q: Quad, c: seq<Lit>)
    requires |c| != 2
    ensures c !in PairsAt(a, b, q)
  {
    PairsAtShape(a, b, q);
  }

  /** `[-v]` is derived exactly when position `v` is never positive, `[v]` when it is never negative. */
  lemma UnitDerived(hard: seq<seq<Lit>>, i: nat, negated: bool)
    requires Cubes(hard) && DistinctVars(hard) && i < |hard[0]|
    ensures [New(Var(hard[0][i]), negated)] in Derived(hard) <==> Count(hard, i, !negated) == 0
  {
    var c := [New(Var(hard[0][i]), negated)];
    var vars, count, block := Vars(hard), Tally(hard), PairBlocks(hard);
    UnitsAtMember(vars[i], count[i], c);
    var u, b := Units(vars, count, |vars|), Binaries(count, block, |vars|);
    assert Derived(hard) == u + b;
    if c in b {
      var i', j' := BinariesFrom(count, block, |vars|, c);
      NotInPairsAt(vars[i'], vars[j'], PairTally(hard)[i'][j'], c);
    }
    if c in u {
      var i' := UnitsFrom(vars, count, |vars|, c);
      UnitsAtMember(vars[i'], count[i'], c);
      NewRoundTrip(vars[i'], true);
      NewRoundTrip(vars[i'], false);
      NewRoundTrip(vars[i], negated);
      assert i' == i;
    }
    if Count(hard, i, !negated) == 0 {
      UnitsIn(vars, count, |vars|, i, c);
    }
  }

  /** With distinct variables, a pair clause names its positions and its combination. */
  lemma PairOfUnique(hard: seq<seq<Lit>>, c: seq<Lit>, i: nat, j: nat, x: bool, y: bool, i': nat, j': nat, x': bool, y': bool)
    requires Cubes(hard) && DistinctVars(hard) && i < j < |hard[0]|
    requires c == [New(Var(hard[0][i]), !x), New(Var(hard[0][j]), !y)] && PairOf(hard, c, i', j', x', y')
    ensures i' == i && j' == j && x' == x && y' == y
  {
    NewRoundTrip(Var(hard[0][i]), !x);
    NewRoundTrip(Var(hard[0][j]), !y);
    NewRoundTrip(Var(hard[0][i']), !x');
    NewRoundTrip(Var(hard[0][j']), !y');
    assert c[0] == New(Var(hard[0][i']), !x') && c[1] == New(Var(hard[0][j']), !y');
  }

  /** The clause of a combination no cube has, at positions `i < j` that are no units, is derived. */
  lemma PairIncluded(hard: seq<seq<Lit>>, i: nat, j: nat, x: bool, y: bool)
    requires Cubes(hard) && i < j < |hard[0]| && Mixed(hard, i) && Mixed(hard, j)
    requires PairCount(hard, i, j, x, y) == 0
    ensures [New(Var(hard[0][i]), !x), New(Var(hard[0][j]), !y)] in Derived(hard)
  {
    var c := [New(Var(hard[0][i]), !x), New(Var(hard[0][j]), !y)];
    var vars, count, block := Vars(hard), Tally(hard), PairBlocks(hard);
    PairsAtMember(vars[i], vars[j], PairTally(hard)[i][j], c);
    assert Pick(PairTally(hard)[i][j], x, y) == 0;
    BinariesIn(count, block, |vars|, i, j, c);
    assert Derived(hard) == Units(vars, count, |vars|) + Binaries(count, block, |vars|);
  }

  /**
   * For positions `i < j` that are no units, the clause excluding a sign
   * combination is derived exactly when no cube has that combination.
   */
  lemma PairDerived(hard: seq<seq<Lit>>, i: nat, j: nat, x: bool, y: bool)
    requires Cubes(hard) && DistinctVars(hard) && i < j < |hard[0]|
    requires Mixed(hard, i) && Mixed(hard, j)
    ensures [New(Var(hard[0][i]), !x), New(Var(hard[0][j]), !y)] in Derived(hard) <==>
      PairCount(hard, i, j, x, y) == 0
  {
    var c := [New(Var(hard[0][i]), !x), New(Var(hard[0][j]), !y)];
    if c in Derived(hard) {
      DerivedOnly(hard, c);
      if exists i': nat, j': nat, x': bool, y': bool :: Mixed(hard, i') && Mixed(hard, j') && PairOf(hard, c, i', j', x', y') {
        var i': nat, j': nat, x': bool, y': bool :| Mixed(hard, i') && Mixed(hard, j') && PairOf(hard, c, i', j', x', y');
        PairOfUnique(hard, c, i, j, x, y, i', j', x', y');
      }
    }
    if PairCount(hard, i, j, x, y) == 0 {
      PairIncluded(hard, i, j, x, y);
    }
  }

  /** Some literal of the clause occurs in the cube. */
  predicate Satisfies(cube: seq<Lit>, clause: seq<Lit>)
  {
    exists t :: 0 <= t < |clause| && clause[t] in cube
  }

  /** In an aligned cube, the literal at position `i` is the one of its variable and polarity. */
  lemma AtPosition(hard: seq<seq<Lit>>, k: nat, i: nat)
    requires Cubes(hard) && Aligned(hard) && k < |hard| && i < |hard[0]|
    ensures hard[k][i] == New(Var(hard[0][i]), Negated(hard[k][i]))
    ensures hard[k][i] in hard[k]
  {
    NewOfParts(hard[k][i]);
  }

  lemma UnitSound(hard: seq<seq<Lit>>, c: seq<Lit>, i: nat, negated: bool, k: nat)
    requires Cubes(hard) && Aligned(hard) && k < |hard| && UnitOf(hard, c, i, negated)
    ensures Satisfies(hard[k], c)
  {
    CountZero(hard, i, !negated);
    AtPosition(hard, k, i);
    assert c[0] == hard[k][i];
  }

  lemma PairSound(hard: seq<seq<Lit>>, c: seq<Lit>, i: nat, j: nat, x: bool, y: bool, k: nat)
    requires Cubes(hard) && Aligned(hard) && k < |hard| && PairOf(hard, c, i, j, x, y)
    ensures Satisfies(hard[k], c)
  {
    PairCountZero(hard, i, j, x, y);
    AtPosition(hard, k, i);
    AtPosition(hard, k, j);
    if Negated(hard[k][i]) != x {
      assert c[0] == hard[k][i];
    } else {
      assert c[1] == hard[k][j];
    }
  }

  /** Every derived clause is satisfied by every hard cube. */
  lemma DerivedSound(hard: seq<seq<Lit>>, c: seq<Lit>, k: nat)
    requires Cubes(hard) && Aligned(hard) && k < |hard|
    requires c in Derived(hard)
    ensures Satisfies(hard[k], c)
  {
    DerivedOnly(hard, c);
    if exists i: nat, negated: bool :: UnitOf(hard, c, i, negated) {
      var i: nat, negated: bool :| UnitOf(hard, c, i, negated);
      UnitSound(hard, c, i, negated, k);
    } else {
      var i: nat, j: nat, x: bool, y: bool :| Mixed(hard, i) && Mixed(hard, j) && PairOf(hard, c, i, j, x, y);
      PairSound(hard, c, i, j, x, y, k);
    }
  }

  // ---------- the method ----------

  /** A quad with the counter of polarity `x` first and `y` second raised by one. */
  function Bump(q: Quad, x: bool, y: bool): (r: Quad)
    ensures forall x': bool, y': bool :: Pick(r, x', y') == Pick(q, x', y') + (if x' == x && y' == y then 1 else 0)
  {
    match (x, y)
    case (false, false) => (q.0 + 1, q.1, q.2, q.3)
    case (false, true) => (q.0, q.1 + 1, q.2, q.3)
    case (true, false) => (q.0, q.1, q.2 + 1, q.3)
    case (true, true) => (q.0, q.1, q.2, q.3 + 1)
  }

  /** Counting one more cube raises the counter of the combination it has. */
  lemma QuadStep(hard: seq<seq<Lit>>, k: nat, i: nat, j: nat)
    requires k < |hard| && i < |hard[k]| && j < |hard[k]|
    ensures PairQuadUpTo(hard, k + 1, i, j) == Bump(PairQuadUpTo(hard, k, i, j), Negated(hard[k][i]), Negated(hard[k][j]))
  {
    var q, r := PairQuadUpTo(hard, k + 1, i, j), Bump(PairQuadUpTo(hard, k, i, j), Negated(hard[k][i]), Negated(hard[k][j]));
    assert Pick(q, false, false) == Pick(r, false, false) && Pick(q, false, true) == Pick(r, false, true);
    assert Pick(q, true, false) == Pick(r, true, false) && Pick(q, true, true) == Pick(r, true, true);
  }

  /** The first loop of `derive_clauses`: per position, the non-negated and the negated occurrences. */
  method CountPolarities(hard: seq<seq<Lit>>) returns (count: array<(nat, nat)>)
    requires Cubes(hard)
    ensures fresh(count) && count[..] == Tally(hard)
  {
    var n := |hard[0]|;
    count := new (nat, nat)[n](_ => (0, 0));
    var k := 0;
    while k < |hard|
      invariant 0 <= k <= |hard| && count.Length == n
      invariant forall p :: 0 <= p < n ==> count[p] == (CountUpTo(hard, k, p, false), CountUpTo(hard, k, p, true))
    {
      var cube := hard[k];
      var i := 0;
      while i < |cube|
        invariant 0 <= i <= |cube| == n
        invariant forall p :: 0 <= p < i ==> count[p] == (CountUpTo(hard, k + 1, p, false), CountUpTo(hard, k + 1, p, true))
        invariant forall p :: i <= p < n ==> count[p] == (CountUpTo(hard, k, p, false), CountUpTo(hard, k, p, true))
      {
        if Negated(cube[i]) {
          count[i] := (count[i].0, count[i].1 + 1);
        } else {
          count[i] := (count[i].0 + 1, count[i].1);
        }
        i := i + 1;
      }
      k := k + 1;
    }
    assert forall p :: 0 <= p < n ==> count[p] == Tally(hard)[p];
  }

  /** Whether position `i` takes part in the pair counting: it is no unit. */
  predicate Live(count: seq<(nat, nat)>, i: nat)
  {
    i < |count| && !IsUnit(count[i])
  }

  /**
   * `count_pair` after the cubes before `k`, and the cube `k` for the pairs
   * before `(i, j)` in row order; only pairs `p < q` of live positions are tracked.
   */
  predicate CountedTo(hard: seq<seq<Lit>>, count: seq<(nat, nat)>, countPair: array2<Quad>, k: nat, i: nat, j: nat)
    requires k < |hard|
    reads countPair
  {
    forall p, q :: 0 <= p < q < countPair.Length0 && q < countPair.Length1 && Live(count, p) && Live(count, q) ==>
      countPair[p, q] == PairQuadUpTo(hard, if p < i || (p == i && q < j) then k + 1 else k, p, q)
  }

  /** One pass of the pair counting loop: cube `k` is added to the counters of every live pair. */
  method AddCube(hard: seq<seq<Lit>>, k: nat, count: seq<(nat, nat)>, countPair: array2<Quad>)
    requires Cubes(hard) && k < |hard| && |count| == |hard[0]|
    requires countPair.Length0 == countPair.Length1 == |count|
    requires CountedTo(hard, count, countPair, k, 0, 0)
    modifies countPair
    ensures CountedTo(hard, count, countPair, k, |count|, 0)
  {
    var n := |count|;
    var cube := hard[k];
    for i := 0 to n
      invariant CountedTo(hard, count, countPair, k, i, 0)
    {
      if count[i].0 == 0 || count[i].1 == 0 {
        continue;
      }
      for j := i + 1 to n
        invariant CountedTo(hard, count, countPair, k, i, j)
      {
        if count[j].0 == 0 || count[j].1 == 0 {
          continue;
        }
        QuadStep(hard, k, i, j);
        countPair[i, j] := Bump(countPair[i, j], Negated(cube[i]), Negated(cube[j]));
      }
      assert CountedTo(hard, count, countPair, k, i + 1, 0);
    }
  }

  /** The second loop of `derive_clauses`: the four counters of every pair of live positions. */
  method CountPairs(hard: seq<seq<Lit>>, count: seq<(nat, nat)>) returns (countPair: array2<Quad>)
    requires Cubes(hard) && |count| == |hard[0]|
    ensures fresh(countPair) && countPair.Length0 == countPair.Length1 == |count|
    ensures forall i, j :: 0 <= i < j < |count| && Live(count, i) && Live(count, j) ==>
      countPair[i, j] == PairTally(hard)[i][j]
  {
    var n := |count|;
    countPair := new Quad[n, n]((_, _) => (0, 0, 0, 0));
    for k := 0 to |hard|
      invariant forall p, q :: 0 <= p < q < n && Live(count, p) && Live(count, q) ==>
        countPair[p, q] == PairQuadUpTo(hard, k, p, q)
    {
      AddCube(hard, k, count, countPair);
    }
  }

  /** The clauses of a pair whose counters are `e`, pushed as `derive_clauses` does. */
  method PairClauses(a: u32, b: u32, e: Quad) returns (clauses: seq<seq<Lit>>)
    ensures clauses == PairsAt(a, b, e)
  {
    var (pp, pn, np, nn) := e;
    clauses := [];
    if pp == 0 {
      clauses := clauses + [[New(a, true), New(b, true)]];
    }
    if pn == 0 {
      clauses := clauses + [[New(a, true), New(b, false)]];
    }
    if np == 0 {
      clauses := clauses + [[New(a, false), New(b, true)]];
    }
    if nn == 0 {
      clauses := clauses + [[New(a, false), New(b, false)]];
    }
  }

  /** The unit loop of `derive_clauses`. */
  method EmitUnits(hard: seq<seq<Lit>>, count: seq<(nat, nat)>) returns (derived: seq<seq<Lit>>)
    requires Cubes(hard) && count == Tally(hard)
    ensures derived == Units(Vars(hard), count, |hard[0]|)
  {
    ghost var vars := Vars(hard);
    derived := [];
    for i := 0 to |hard[0]|
      invariant derived == Units(vars, count, i)
    {
      var v := Var(hard[0][i]);
      var (pos, neg) := count[i];
      if pos == 0 {
        derived := derived + [[New(v, true)]];
      }
      if neg == 0 {
        derived := derived + [[New(v, false)]];
      }
    }
  }

  /** A unit position adds no binary clauses. */
  lemma RowPairsSkip(count: seq<(nat, nat)>, block: seq<seq<seq<seq<Lit>>>>, i: nat, j: nat)
    requires Square(count, block) && i < j < |count| && IsUnit(count[j])
    ensures RowPairs(count, block, i, j + 1) == RowPairs(count, block, i, j)
  {
  }

  lemma RowPairsStep(count: seq<(nat, nat)>, block: seq<seq<seq<seq<Lit>>>>, i: nat, j: nat)
    requires Square(count, block) && i < j < |count| && !IsUnit(count[j])
    ensures RowPairs(count, block, i, j + 1) == RowPairs(count, block, i, j) + block[i][j]
  {
  }

  lemma BinariesSkip(count: seq<(nat, nat)>, block: seq<seq<seq<seq<Lit>>>>, i: nat)
    requires Square(count, block) && i < |count| && IsUnit(count[i])
    ensures Binaries(count, block, i + 1) == Binaries(count, block, i)
  {
  }

  /** The blocks of row `i` before `k` agree with the counters of `count_pair`. */
  predicate RowMatches(hard: seq<seq<Lit>>, count: seq<(nat, nat)>, countPair: array2<Quad>, block: seq<seq<seq<seq<Lit>>>>,
                       i: nat, k: nat)
    requires Cubes(hard) && |count| == |hard[0]| && Square(count, block) && i < |count| && k <= |count|
    requires countPair.Length0 == countPair.Length1 == |count|
    reads countPair
  {
    k <= i + 1 ||
    (RowMatches(hard, count, countPair, block, i, k - 1) &&
     (Live(count, k - 1) ==> block[i][k - 1] == PairsAt(Var(hard[0][i]), Var(hard[0][k - 1]), countPair[i, k - 1])))
  }

  lemma {:induction false} RowMatchesAt(hard: seq<seq<Lit>>, count: seq<(nat, nat)>, countPair: array2<Quad>,
                                         block: seq<seq<seq<seq<Lit>>>>, i: nat, k: nat, j: nat)
    requires Cubes(hard) && |count| == |hard[0]| && Square(count, block) && i < j < k <= |count| && Live(count, j)
    requires countPair.Length0 == countPair.Length1 == |count|
    requires RowMatches(hard, count, countPair, block, i, k)
    ensures block[i][j] == PairsAt(Var(hard[0][i]), Var(hard[0][j]), countPair[i, j])
  {
    if j < k - 1 {
      RowMatchesAt(hard, count, countPair, block, i, k - 1, j);
    }
  }

  lemma {:induction false} RowMatchesFrom(hard: seq<seq<Lit>>, count: seq<(nat, nat)>, countPair: array2<Quad>,
                                           block: seq<seq<seq<seq<Lit>>>>, i: nat, k: nat)
    requires Cubes(hard) && |count| == |hard[0]| && Square(count, block) && i < |count| && k <= |count|
    requires countPair.Length0 == countPair.Length1 == |count|
    requires forall j :: i < j < k && Live(count, j) ==>
      block[i][j] == PairsAt(Var(hard[0][i]), Var(hard[0][j]), countPair[i, j])
    ensures RowMatches(hard, count, countPair, block, i, k)
  {
    if k > i + 1 {
      RowMatchesFrom(hard, count, countPair, block, i, k - 1);
    }
  }

  /** The body of the inner loop for a live pair `i`, `j`: the four clause pushes. */
  method EmitPair(hard: seq<seq<Lit>>, count: seq<(nat, nat)>, countPair: array2<Quad>, ghost block: seq<seq<seq<seq<Lit>>>>,
                  i: nat, j: nat)
    returns (clauses: seq<seq<Lit>>)
    requires Cubes(hard) && |count| == |hard[0]| && i < j < |count| && Live(count, j) && Square(count, block)
    requires countPair.Length0 == countPair.Length1 == |count|
    requires RowMatches(hard, count, countPair, block, i, |count|)
    ensures clauses == block[i][j]
  {
    RowMatchesAt(hard, count, countPair, block, i, |count|, j);
    var a := Var(hard[0][i]);
    var b := Var(hard[0][j]);
    clauses := PairClauses(a, b, countPair[i, j]);
  }

  /**
   * The inner loop of the binary emission: the clauses of the pairs `i`,
   * `j` for live `j > i`, in the order they are pushed.
   */
  method EmitRow(hard: seq<seq<Lit>>, count: seq<(nat, nat)>, countPair: array2<Quad>, ghost block: seq<seq<seq<seq<Lit>>>>, i: nat)
    returns (row: seq<seq<Lit>>)
    requires Cubes(hard) && |count| == |hard[0]| && i < |count| && Square(count, block)
    requires countPair.Length0 == countPair.Length1 == |count|
    requires RowMatches(hard, count, countPair, block, i, |count|)
    ensures row == RowPairs(count, block, i, |count|)
  {
    row := [];
    for j := i + 1 to |count|
      invariant row == RowPairs(count, block, i, j)
    {
      if count[j].0 == 0 || count[j].1 == 0 {
        RowPairsSkip(count, block, i, j);
        continue;
      }
      var clauses := EmitPair(hard, count, countPair, block, i, j);
      RowPairsStep(count, block, i, j);
      row := row + clauses;
    }
  }

  /** The outer loop of the binary emission: the binary clauses of the rows of the live positions. */
  method EmitBinaries(hard: seq<seq<Lit>>, count: seq<(nat, nat)>, countPair: array2<Quad>, ghost block: seq<seq<seq<seq<Lit>>>>)
    returns (binaries: seq<seq<Lit>>)
    requires Cubes(hard) && |count| == |hard[0]| && Square(count, block)
    requires countPair.Length0 == countPair.Length1 == |count|
    requires forall i, j :: 0 <= i < j < |count| && Live(count, i) && Live(count, j) ==>
      block[i][j] == PairsAt(Var(hard[0][i]), Var(hard[0][j]), countPair[i, j])
    ensures binaries == Binaries(count, block, |count|)
  {
    binaries := [];
    for i := 0 to |count|
      invariant binaries == Binaries(count, block, i)
    {
      if count[i].0 == 0 || count[i].1 == 0 {
        BinariesSkip(count, block, i);
        continue;
      }
      RowMatchesFrom(hard, count, countPair, block, i, |count|);
      var row := EmitRow(hard, count, countPair, block, i);
      binaries := binaries + row;
    }
  }

  /** The counters of `count_pair` give the clause blocks of the live pairs. */
  lemma CountedBlocks(hard: seq<seq<Lit>>, count: seq<(nat, nat)>, countPair: array2<Quad>)
    requires Cubes(hard) && count == Tally(hard)
    requires countPair.Length0 == countPair.Length1 == |count|
    requires forall i, j :: 0 <= i < j < |count| && Live(count, i) && Live(count, j) ==>
      countPair[i, j] == PairTally(hard)[i][j]
    ensures Square(count, PairBlocks(hard))
    ensures forall i, j :: 0 <= i < j < |count| && Live(count, i) && Live(count, j) ==>
      PairBlocks(hard)[i][j] == PairsAt(Var(hard[0][i]), Var(hard[0][j]), countPair[i, j])
  {
  }

  /** `derive_clauses`: the units of every position, then the binary clauses of every pair of live positions. */
  method DeriveClauses(hard: seq<seq<Lit>>) returns (derived: seq<seq<Lit>>)
    requires Cubes(hard)
    ensures derived == Derived(hard)
  {
    var counts := CountPolarities(hard);
    var count := counts[..];
    var units := EmitUnits(hard, count);
    var countPair := CountPairs(hard, count);
    CountedBlocks(hard, count, countPair);
    var binaries := EmitBinaries(hard, count, countPair, PairBlocks(hard));
    derived := units + binaries;
  }
}
