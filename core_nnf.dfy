/**
 * Formulas in negation normal form and their translation to clauses
 * (lib/core/src/formula/nnf.rs). `to_cnf` keeps conjunctions as clause lists
 * and turns a disjunction into one clause over the Tseytin literals of its
 * arguments; `reify` gives every compound argument a fresh variable `z`
 * defined by gate clauses. Fresh variables come from a counter, the
 * reification context.
 *
 * The functions below thread the counter through the recursion and specify
 * the methods at the end of the module, which follow the source's loops.
 */
module CoreNnf {
  import opened Semantics
  import opened Ops
  import opened Seqs

  datatype Nnf = Literal(lit: int) | Conjunction(args: seq<Nnf>) | Disjunction(args: seq<Nnf>)

  /** The truth value of a formula under a model. */
  predicate Eval(m: Model, f: Nnf)
  {
    match f
    case Literal(l) => LitTrue(m, l)
    case Conjunction(args) => forall i :: 0 <= i < |args| ==> Eval(m, args[i])
    case Disjunction(args) => exists i :: 0 <= i < |args| && Eval(m, args[i])
  }

  /** `reify` meets no empty argument list, on which it panics. */
  predicate Reifiable(f: Nnf)
  {
    match f
    case Literal(_) => true
    case Conjunction(args) => |args| >= 1 && forall i :: 0 <= i < |args| ==> Reifiable(args[i])
    case Disjunction(args) => |args| >= 1 && forall i :: 0 <= i < |args| ==> Reifiable(args[i])
  }

  /**
   * `to_cnf` meets no empty argument list: a disjunction panics on one and a
   * conjunction debug-asserts against one; the arguments of a disjunction of
   * two or more are reified.
   */
  predicate Convertible(f: Nnf)
  {
    match f
    case Literal(_) => true
    case Conjunction(args) => |args| >= 1 && forall i :: 0 <= i < |args| ==> Convertible(args[i])
    case Disjunction(args) =>
      |args| >= 1 &&
      if |args| == 1 then Convertible(args[0]) else forall i :: 0 <= i < |args| ==> Reifiable(args[i])
  }

  /** Without empty argument lists anywhere, `to_cnf` meets none of its panics. */
  lemma {:induction false} ReifiableConvertible(f: Nnf)
    requires Reifiable(f)
    ensures Convertible(f)
    decreases f
  {
    match f
    case Literal(_) =>
    case Conjunction(args) =>
      forall i | 0 <= i < |args| ensures Convertible(args[i]) {
        ReifiableConvertible(args[i]);
      }
    case Disjunction(args) =>
      if |args| == 1 {
        ReifiableConvertible(args[0]);
      }
  }

  /** Every literal of `f` is non-zero and names one of the variables `1 .. n`. */
  predicate Within(f: Nnf, n: nat)
  {
    match f
    case Literal(l) => l != 0 && Abs(l) <= n
    case Conjunction(args) => forall i :: 0 <= i < |args| ==> Within(args[i], n)
    case Disjunction(args) => forall i :: 0 <= i < |args| ==> Within(args[i], n)
  }

  lemma {:induction false} WithinMono(f: Nnf, n: nat, k: nat)
    requires Within(f, n) && n <= k
    ensures Within(f, k)
  {
    match f
    case Literal(_) =>
    case Conjunction(args) =>
      forall i | 0 <= i < |args| ensures Within(args[i], k) { WithinMono(args[i], n, k); }
    case Disjunction(args) =>
      forall i | 0 <= i < |args| ensures Within(args[i], k) { WithinMono(args[i], n, k); }
  }

  // ---------- gates ----------

  /** The Tseytin clauses of `z <=> AND(lits)`: `(z, -x1, .., -xn)` and each `(-z, xi)`. */
  function AndGate(z: int, lits: seq<int>): (r: seq<seq<int>>)
    ensures |r| == |lits| + 1
  {
    [[z] + Negs(lits)] + ImplyEach([-z], lits)
  }

  /** The clauses of the disjunction branch of `reify` as written: `(-z, -x1, .., -xn)` and each `(z, xi)`. */
  function OrGateWritten(z: int, lits: seq<int>): (r: seq<seq<int>>)
    ensures |r| == |lits| + 1
  {
    [[-z] + Negs(lits)] + ImplyEach([z], lits)
  }

  /** The Tseytin clauses of `z <=> OR(lits)` that the comment announces: `(-z, x1, .., xn)` and each `(z, -xi)`. */
  function OrGate(z: int, lits: seq<int>): (r: seq<seq<int>>)
    ensures |r| == |lits| + 1
  {
    [[-z] + lits] + ImplyEach([z], Negs(lits))
  }

  lemma AllTrueNegs(m: Model, xs: seq<int>)
    requires NonZero(xs)
    ensures AllTrue(m, Negs(xs)) <==> !ClauseSat(m, xs)
  {
    forall i | 0 <= i < |xs|
      ensures LitTrue(m, Negs(xs)[i]) <==> !LitTrue(m, xs[i])
    {
      NegLit(m, xs[i]);
    }
  }

  lemma AndGateMeaning(m: Model, z: int, lits: seq<int>)
    requires z != 0 && NonZero(lits)
    ensures CnfSat(m, AndGate(z, lits)) <==> (LitTrue(m, z) <==> AllTrue(m, lits))
  {
    CnfSatCons(m, [z] + Negs(lits), ImplyEach([-z], lits));
    ClauseSatCons(m, z, Negs(lits));
    ClauseSatNegs(m, lits);
    CnfSatImplyEach(m, [-z], lits);
    ClauseSatSingle(m, -z);
    NegLit(m, z);
  }

  /** The written clauses define `z` as NAND of the literals, not as their OR. */
  lemma OrGateWrittenMeaning(m: Model, z: int, lits: seq<int>)
    requires z != 0 && NonZero(lits)
    ensures CnfSat(m, OrGateWritten(z, lits)) <==> (LitTrue(m, z) <==> !AllTrue(m, lits))
  {
    CnfSatCons(m, [-z] + Negs(lits), ImplyEach([z], lits));
    ClauseSatCons(m, -z, Negs(lits));
    ClauseSatNegs(m, lits);
    CnfSatImplyEach(m, [z], lits);
    ClauseSatSingle(m, z);
    NegLit(m, z);
  }

  lemma OrGateMeaning(m: Model, z: int, lits: seq<int>)
    requires z != 0 && NonZero(lits)
    ensures CnfSat(m, OrGate(z, lits)) <==> (LitTrue(m, z) <==> ClauseSat(m, lits))
  {
    CnfSatCons(m, [-z] + lits, ImplyEach([z], Negs(lits)));
    ClauseSatCons(m, -z, lits);
    AllTrueNegs(m, lits);
    CnfSatImplyEach(m, [z], Negs(lits));
    ClauseSatSingle(m, z);
    NegLit(m, z);
  }

  // ---------- reify and to_cnf as functions of the counter ----------

  datatype Reified = Reified(lit: int, clauses: seq<seq<int>>, next: nat)
  datatype Folded = Folded(lits: seq<int>, clauses: seq<seq<int>>, next: nat)
  datatype Translated = Translated(clauses: seq<seq<int>>, next: nat)

  /**
   * The clauses of the disjunction branch of `reify`: the gate the source
   * writes when `written`, the gate its comment announces otherwise.
   */
  function DisjunctionGate(written: bool, z: int, lits: seq<int>): seq<seq<int>>
  {
    if written then OrGateWritten(z, lits) else OrGate(z, lits)
  }

  /**
   * `reify` from counter value `n`: a literal stands for itself; a single
   * argument is reified in place; two or more are reified in order and then
   * defined by one fresh variable, the next value of the counter. `written`
   * chooses the disjunction gate; the rest of the model takes the corrected one.
   */
  function Reification(written: bool, f: Nnf, n: nat): (r: Reified)
    requires Reifiable(f)
    ensures r.next >= n
    ensures f.Literal? ==> r == Reified(f.lit, [], n)
    ensures !f.Literal? && |f.args| >= 2 ==> r.lit == r.next > n
    decreases f, 1
  {
    match f
    case Literal(l) => Reified(l, [], n)
    case Conjunction(args) =>
      if |args| == 1 then Reification(written, args[0], n)
      else
        var p := ReifyAll(written, args, n);
        Reified(p.next + 1, p.clauses + AndGate(p.next + 1, p.lits), p.next + 1)
    case Disjunction(args) =>
      if |args| == 1 then Reification(written, args[0], n)
      else
        var p := ReifyAll(written, args, n);
        Reified(p.next + 1, p.clauses + DisjunctionGate(written, p.next + 1, p.lits), p.next + 1)
  }

  /** The loop over the arguments: each one reified from where the previous one left the counter. */
  function ReifyAll(written: bool, args: seq<Nnf>, n: nat): (p: Folded)
    requires forall i :: 0 <= i < |args| ==> Reifiable(args[i])
    ensures |p.lits| == |args| && p.next >= n
    decreases args, 0
  {
    if |args| == 0 then Folded([], [], n)
    else
      var p := ReifyAll(written, args[..|args| - 1], n);
      var r := Reification(written, args[|args| - 1], p.next);
      Folded(p.lits + [r.lit], p.clauses + r.clauses, r.next)
  }

  /**
   * `to_cnf` from counter value `n`: a literal is a unit clause, a
   * conjunction the concatenation of its arguments' clauses, a single
   * disjunct is translated in place, and two or more disjuncts are reified
   * and joined in one clause.
   */
  function Translation(written: bool, f: Nnf, n: nat): (t: Translated)
    requires Convertible(f)
    ensures t.next >= n
    ensures f.Literal? ==> t == Translated([[f.lit]], n)
    decreases f, 1
  {
    match f
    case Literal(l) => Translated([[l]], n)
    case Conjunction(args) => TranslateAll(written, args, n)
    case Disjunction(args) =>
      if |args| == 1 then Translation(written, args[0], n)
      else
        var p := ReifyAll(written, args, n);
        Translated(p.clauses + [p.lits], p.next)
  }

  function TranslateAll(written: bool, args: seq<Nnf>, n: nat): (t: Translated)
    requires forall i :: 0 <= i < |args| ==> Convertible(args[i])
    ensures t.next >= n
    decreases args, 0
  {
    if |args| == 0 then Translated([], n)
    else
      var p := TranslateAll(written, args[..|args| - 1], n);
      var t := Translation(written, args[|args| - 1], p.next);
      Translated(p.clauses + t.clauses, t.next)
  }

  // ---------- soundness: every model of the clauses ----------

  /** In every model of its clauses, the literal `reify` returns has the formula's value. */
  lemma {:induction false} ReificationSound(m: Model, f: Nnf, n: nat)
    requires Reifiable(f) && Within(f, n)
    ensures Reification(false, f, n).lit != 0
    ensures CnfSat(m, Reification(false, f, n).clauses) ==> (LitTrue(m, Reification(false, f, n).lit) <==> Eval(m, f))
    decreases f, 1
  {
    match f
    case Literal(_) =>
    case Conjunction(args) =>
      if |args| == 1 {
        ReificationSound(m, args[0], n);
      } else {
        var p := ReifyAll(false, args, n);
        ReifyAllSound(m, args, n);
        CnfSatAppend(m, p.clauses, AndGate(p.next + 1, p.lits));
        AndGateMeaning(m, p.next + 1, p.lits);
      }
    case Disjunction(args) =>
      if |args| == 1 {
        ReificationSound(m, args[0], n);
      } else {
        var p := ReifyAll(false, args, n);
        var z := p.next + 1;
        assert Reification(false, f, n) == Reified(z, p.clauses + OrGate(z, p.lits), z);
        ReifyAllSound(m, args, n);
        CnfSatAppend(m, p.clauses, OrGate(z, p.lits));
        OrGateMeaning(m, z, p.lits);
        if CnfSat(m, p.clauses) && ClauseSat(m, p.lits) {
          var i :| 0 <= i < |p.lits| && LitTrue(m, p.lits[i]);
          assert Eval(m, args[i]);
        }
      }
  }

  lemma {:induction false} ReifyAllSound(m: Model, args: seq<Nnf>, n: nat)
    requires forall i :: 0 <= i < |args| ==> Reifiable(args[i]) && Within(args[i], n)
    ensures NonZero(ReifyAll(false, args, n).lits)
    ensures CnfSat(m, ReifyAll(false, args, n).clauses) ==>
      forall i :: 0 <= i < |args| ==> (LitTrue(m, ReifyAll(false, args, n).lits[i]) <==> Eval(m, args[i]))
    decreases args, 0
  {
    if |args| > 0 {
      var k := |args| - 1;
      var p := ReifyAll(false, args[..k], n);
      ReifyAllSound(m, args[..k], n);
      WithinMono(args[k], n, p.next);
      ReificationSound(m, args[k], p.next);
      var r := Reification(false, args[k], p.next);
      CnfSatAppend(m, p.clauses, r.clauses);
      assert forall i :: 0 <= i < k ==> (p.lits + [r.lit])[i] == p.lits[i] && args[..k][i] == args[i];
    }
  }

  /** Every model of the clauses `to_cnf` emits satisfies the formula. */
  lemma {:induction false} TranslationSound(m: Model, f: Nnf, n: nat)
    requires Convertible(f) && Within(f, n)
    ensures CnfSat(m, Translation(false, f, n).clauses) ==> Eval(m, f)
    decreases f, 1
  {
    match f
    case Literal(l) =>
      CnfSatSingle(m, [l]);
      ClauseSatSingle(m, l);
    case Conjunction(args) =>
      TranslateAllSound(m, args, n);
    case Disjunction(args) =>
      if |args| == 1 {
        TranslationSound(m, args[0], n);
      } else {
        var p := ReifyAll(false, args, n);
        ReifyAllSound(m, args, n);
        CnfSatAppend(m, p.clauses, [p.lits]);
        CnfSatSingle(m, p.lits);
        if CnfSat(m, p.clauses + [p.lits]) {
          var i :| 0 <= i < |p.lits| && LitTrue(m, p.lits[i]);
          assert Eval(m, args[i]);
        }
      }
  }

  lemma {:induction false} TranslateAllSound(m: Model, args: seq<Nnf>, n: nat)
    requires forall i :: 0 <= i < |args| ==> Convertible(args[i]) && Within(args[i], n)
    ensures CnfSat(m, TranslateAll(false, args, n).clauses) ==> forall i :: 0 <= i < |args| ==> Eval(m, args[i])
    decreases args, 0
  {
    if |args| > 0 {
      var k := |args| - 1;
      var p := TranslateAll(false, args[..k], n);
      TranslateAllSound(m, args[..k], n);
      WithinMono(args[k], n, p.next);
      TranslationSound(m, args[k], p.next);
      CnfSatAppend(m, p.clauses, Translation(false, args[k], p.next).clauses);
      assert forall i :: 0 <= i < k ==> args[..k][i] == args[i];
    }
  }

  // ---------- completeness: every model of the formula extends ----------

  /** Every clause literal is non-zero and names one of the variables `1 .. k`. */
  predicate ClausesWithin(cls: seq<seq<int>>, k: nat)
  {
    forall i, j :: 0 <= i < |cls| && 0 <= j < |cls[i]| ==> cls[i][j] != 0 && Abs(cls[i][j]) <= k
  }

  /** Two models that agree on the variables `1 .. k`. */
  predicate Agree(m1: Model, m2: Model, k: nat)
  {
    forall v: nat :: 1 <= v <= k ==> m1(v) == m2(v)
  }

  function Set(m: Model, v: nat, b: bool): Model
  {
    (x: nat) => if x == v then b else m(x)
  }

  lemma AgreeLit(m1: Model, m2: Model, k: nat, l: int)
    requires Agree(m1, m2, k) && l != 0 && Abs(l) <= k
    ensures LitTrue(m1, l) == LitTrue(m2, l)
  {
  }

  lemma AgreeMono(m1: Model, m2: Model, k: nat, j: nat)
    requires Agree(m1, m2, k) && j <= k
    ensures Agree(m1, m2, j)
  {
  }

  lemma AgreeCnf(m1: Model, m2: Model, k: nat, cls: seq<seq<int>>)
    requires Agree(m1, m2, k) && ClausesWithin(cls, k)
    ensures CnfSat(m1, cls) == CnfSat(m2, cls)
  {
    forall i, j | 0 <= i < |cls| && 0 <= j < |cls[i]|
      ensures LitTrue(m1, cls[i][j]) == LitTrue(m2, cls[i][j])
    {
      AgreeLit(m1, m2, k, cls[i][j]);
    }
  }

  lemma {:induction false} AgreeEval(m1: Model, m2: Model, k: nat, f: Nnf)
    requires Agree(m1, m2, k) && Within(f, k)
    ensures Eval(m1, f) == Eval(m2, f)
  {
    match f
    case Literal(l) => AgreeLit(m1, m2, k, l);
    case Conjunction(args) =>
      forall i | 0 <= i < |args| ensures Eval(m1, args[i]) == Eval(m2, args[i]) { AgreeEval(m1, m2, k, args[i]); }
    case Disjunction(args) =>
      forall i | 0 <= i < |args| ensures Eval(m1, args[i]) == Eval(m2, args[i]) { AgreeEval(m1, m2, k, args[i]); }
  }

  lemma ClausesWithinAppend(a: seq<seq<int>>, b: seq<seq<int>>, k: nat)
    requires ClausesWithin(a, k) && ClausesWithin(b, k)
    ensures ClausesWithin(a + b, k)
  {
    forall i, j | 0 <= i < |a + b| && 0 <= j < |(a + b)[i]|
      ensures (a + b)[i][j] != 0 && Abs((a + b)[i][j]) <= k
    {
      if i >= |a| {
        assert (a + b)[i] == b[i - |a|];
      }
    }
  }

  lemma ClausesWithinMono(a: seq<seq<int>>, k: nat, j: nat)
    requires ClausesWithin(a, k) && k <= j
    ensures ClausesWithin(a, j)
  {
  }

  lemma GateWithin(z: int, lits: seq<int>, k: nat)
    requires 0 < z <= k && NonZero(lits) && forall i :: 0 <= i < |lits| ==> Abs(lits[i]) <= k
    ensures ClausesWithin(AndGate(z, lits), k) && ClausesWithin(OrGate(z, lits), k)
  {
    var a := AndGate(z, lits);
    assert forall i :: 1 <= i < |a| ==> a[i] == [-z, lits[i - 1]];
    var o := OrGate(z, lits);
    assert forall i :: 1 <= i < |o| ==> o[i] == [z, -lits[i - 1]];
    assert forall j :: 1 <= j < |a[0]| ==> a[0][j] == -lits[j - 1];
    assert forall j :: 1 <= j < |o[0]| ==> o[0][j] == lits[j - 1];
  }

  /** The literal and the clauses of `reify` use only variables up to the final counter. */
  lemma {:induction false} ReificationWithin(f: Nnf, n: nat)
    requires Reifiable(f) && Within(f, n)
    ensures var r := Reification(false, f, n);
      r.lit != 0 && Abs(r.lit) <= r.next && ClausesWithin(r.clauses, r.next)
    decreases f, 1
  {
    match f
    case Literal(_) =>
    case Conjunction(args) =>
      if |args| == 1 {
        ReificationWithin(args[0], n);
      } else {
        var p := ReifyAll(false, args, n);
        ReifyAllWithin(args, n);
        GateWithin(p.next + 1, p.lits, p.next + 1);
        ClausesWithinMono(p.clauses, p.next, p.next + 1);
        ClausesWithinAppend(p.clauses, AndGate(p.next + 1, p.lits), p.next + 1);
      }
    case Disjunction(args) =>
      if |args| == 1 {
        ReificationWithin(args[0], n);
      } else {
        var p := ReifyAll(false, args, n);
        ReifyAllWithin(args, n);
        GateWithin(p.next + 1, p.lits, p.next + 1);
        ClausesWithinMono(p.clauses, p.next, p.next + 1);
        ClausesWithinAppend(p.clauses, OrGate(p.next + 1, p.lits), p.next + 1);
      }
  }

  lemma {:induction false} ReifyAllWithin(args: seq<Nnf>, n: nat)
    requires forall i :: 0 <= i < |args| ==> Reifiable(args[i]) && Within(args[i], n)
    ensures var p := ReifyAll(false, args, n);
      NonZero(p.lits) && (forall i :: 0 <= i < |p.lits| ==> Abs(p.lits[i]) <= p.next) &&
      ClausesWithin(p.clauses, p.next)
    decreases args, 0
  {
    if |args| > 0 {
      var k := |args| - 1;
      var p := ReifyAll(false, args[..k], n);
      ReifyAllWithin(args[..k], n);
      WithinMono(args[k], n, p.next);
      ReificationWithin(args[k], p.next);
      var r := Reification(false, args[k], p.next);
      ClausesWithinMono(p.clauses, p.next, r.next);
      ClausesWithinAppend(p.clauses, r.clauses, r.next);
      assert forall i :: 0 <= i < k ==> (p.lits + [r.lit])[i] == p.lits[i];
    }
  }

  /** The model `reify` has in mind: `m`, with every fresh variable set to the value of the gate it names. */
  function Witness(m: Model, f: Nnf, n: nat): Model
    requires Reifiable(f)
    decreases f, 1
  {
    match f
    case Literal(_) => m
    case Conjunction(args) =>
      if |args| == 1 then Witness(m, args[0], n)
      else
        var w := WitnessAll(m, args, n);
        Set(w, ReifyAll(false, args, n).next + 1, AllTrue(w, ReifyAll(false, args, n).lits))
    case Disjunction(args) =>
      if |args| == 1 then Witness(m, args[0], n)
      else
        var w := WitnessAll(m, args, n);
        Set(w, ReifyAll(false, args, n).next + 1, ClauseSat(w, ReifyAll(false, args, n).lits))
  }

  function WitnessAll(m: Model, args: seq<Nnf>, n: nat): Model
    requires forall i :: 0 <= i < |args| ==> Reifiable(args[i])
    decreases args, 0
  {
    if |args| == 0 then m
    else
      var k := |args| - 1;
      Witness(WitnessAll(m, args[..k], n), args[k], ReifyAll(false, args[..k], n).next)
  }

  /** The witness changes no variable the counter had already handed out. */
  lemma {:induction false} WitnessFrame(m: Model, f: Nnf, n: nat)
    requires Reifiable(f)
    ensures Agree(Witness(m, f, n), m, n)
    decreases f, 1
  {
    match f
    case Literal(_) =>
    case Conjunction(args) =>
      if |args| == 1 {
        WitnessFrame(m, args[0], n);
      } else {
        WitnessAllFrame(m, args, n);
      }
    case Disjunction(args) =>
      if |args| == 1 {
        WitnessFrame(m, args[0], n);
      } else {
        WitnessAllFrame(m, args, n);
      }
  }

  lemma {:induction false} WitnessAllFrame(m: Model, args: seq<Nnf>, n: nat)
    requires forall i :: 0 <= i < |args| ==> Reifiable(args[i])
    ensures Agree(WitnessAll(m, args, n), m, n)
    decreases args, 0
  {
    if |args| > 0 {
      var k := |args| - 1;
      var w := WitnessAll(m, args[..k], n);
      WitnessAllFrame(m, args[..k], n);
      WitnessFrame(w, args[k], ReifyAll(false, args[..k], n).next);
      AgreeMono(Witness(w, args[k], ReifyAll(false, args[..k], n).next), w, ReifyAll(false, args[..k], n).next, n);
    }
  }

  /** Setting the variable after `next` disturbs no clause and no literal within `next`. */
  lemma SetFresh(w: Model, b: bool, lits: seq<int>, clauses: seq<seq<int>>, next: nat)
    requires NonZero(lits) && (forall i :: 0 <= i < |lits| ==> Abs(lits[i]) <= next) && ClausesWithin(clauses, next)
    ensures CnfSat(Set(w, next + 1, b), clauses) == CnfSat(w, clauses)
    ensures forall i :: 0 <= i < |lits| ==> LitTrue(Set(w, next + 1, b), lits[i]) == LitTrue(w, lits[i])
    ensures ClauseSat(Set(w, next + 1, b), lits) == ClauseSat(w, lits)
    ensures AllTrue(Set(w, next + 1, b), lits) == AllTrue(w, lits)
    ensures LitTrue(Set(w, next + 1, b), next + 1) == b
  {
    var w2 := Set(w, next + 1, b);
    assert Agree(w2, w, next);
    AgreeCnf(w2, w, next, clauses);
    forall i | 0 <= i < |lits| ensures LitTrue(w2, lits[i]) == LitTrue(w, lits[i]) {
      AgreeLit(w2, w, next, lits[i]);
    }
  }

  /** The witness satisfies the clauses of `reify`, and the returned literal takes the formula's value under `m`. */
  lemma {:induction false} WitnessComplete(m: Model, f: Nnf, n: nat)
    requires Reifiable(f) && Within(f, n)
    ensures CnfSat(Witness(m, f, n), Reification(false, f, n).clauses)
    ensures LitTrue(Witness(m, f, n), Reification(false, f, n).lit) <==> Eval(m, f)
    decreases f, 2
  {
    match f
    case Literal(_) =>
    case Conjunction(args) =>
      if |args| == 1 {
        WitnessComplete(m, args[0], n);
      } else {
        WitnessAndComplete(m, args, n);
      }
    case Disjunction(args) =>
      if |args| == 1 {
        WitnessComplete(m, args[0], n);
      } else {
        WitnessOrComplete(m, args, n);
      }
  }

  lemma {:induction false} WitnessAndComplete(m: Model, args: seq<Nnf>, n: nat)
    requires |args| >= 2 && forall i :: 0 <= i < |args| ==> Reifiable(args[i]) && Within(args[i], n)
    ensures CnfSat(Witness(m, Conjunction(args), n), Reification(false, Conjunction(args), n).clauses)
    ensures LitTrue(Witness(m, Conjunction(args), n), Reification(false, Conjunction(args), n).lit) <==> Eval(m, Conjunction(args))
    decreases args, 1
  {
    var p := ReifyAll(false, args, n);
    var w := WitnessAll(m, args, n);
    var z := p.next + 1;
    var w2 := Set(w, z, AllTrue(w, p.lits));
    assert Witness(m, Conjunction(args), n) == w2;
    assert Reification(false, Conjunction(args), n) == Reified(z, p.clauses + AndGate(z, p.lits), z);
    WitnessAllComplete(m, args, n);
    ReifyAllWithin(args, n);
    SetFresh(w, AllTrue(w, p.lits), p.lits, p.clauses, p.next);
    AndGateMeaning(w2, z, p.lits);
    CnfSatAppend(w2, p.clauses, AndGate(z, p.lits));
  }

  lemma {:induction false} WitnessOrComplete(m: Model, args: seq<Nnf>, n: nat)
    requires |args| >= 2 && forall i :: 0 <= i < |args| ==> Reifiable(args[i]) && Within(args[i], n)
    ensures CnfSat(Witness(m, Disjunction(args), n), Reification(false, Disjunction(args), n).clauses)
    ensures LitTrue(Witness(m, Disjunction(args), n), Reification(false, Disjunction(args), n).lit) <==> Eval(m, Disjunction(args))
    decreases args, 1
  {
    var p := ReifyAll(false, args, n);
    var w := WitnessAll(m, args, n);
    var z := p.next + 1;
    var w2 := Set(w, z, ClauseSat(w, p.lits));
    assert Witness(m, Disjunction(args), n) == w2;
    assert Reification(false, Disjunction(args), n) == Reified(z, p.clauses + OrGate(z, p.lits), z);
    WitnessAllComplete(m, args, n);
    ReifyAllWithin(args, n);
    SetFresh(w, ClauseSat(w, p.lits), p.lits, p.clauses, p.next);
    OrGateMeaning(w2, z, p.lits);
    CnfSatAppend(w2, p.clauses, OrGate(z, p.lits));
    if Eval(m, Disjunction(args)) {
      var i :| 0 <= i < |args| && Eval(m, args[i]);
      assert LitTrue(w, p.lits[i]);
    }
    if ClauseSat(w, p.lits) {
      var i :| 0 <= i < |p.lits| && LitTrue(w, p.lits[i]);
      assert Eval(m, args[i]);
    }
  }

  lemma {:induction false} WitnessAllComplete(m: Model, args: seq<Nnf>, n: nat)
    requires forall i :: 0 <= i < |args| ==> Reifiable(args[i]) && Within(args[i], n)
    ensures CnfSat(WitnessAll(m, args, n), ReifyAll(false, args, n).clauses)
    ensures forall i :: 0 <= i < |args| ==>
      (LitTrue(WitnessAll(m, args, n), ReifyAll(false, args, n).lits[i]) <==> Eval(m, args[i]))
    decreases args, 0
  {
    if |args| > 0 {
      var k := |args| - 1;
      var p := ReifyAll(false, args[..k], n);
      var w := WitnessAll(m, args[..k], n);
      var r := Reification(false, args[k], p.next);
      var w2 := Witness(w, args[k], p.next);
      WitnessAllComplete(m, args[..k], n);
      ReifyAllWithin(args[..k], n);
      WithinMono(args[k], n, p.next);
      WitnessComplete(w, args[k], p.next);
      WitnessFrame(w, args[k], p.next);
      AgreeCnf(w2, w, p.next, p.clauses);
      CnfSatAppend(w2, p.clauses, r.clauses);
      WitnessAllFrame(m, args[..k], n);
      AgreeEval(w, m, n, args[k]);
      forall i | 0 <= i < |args|
        ensures LitTrue(w2, (p.lits + [r.lit])[i]) <==> Eval(m, args[i])
      {
        if i < k {
          assert (p.lits + [r.lit])[i] == p.lits[i] && args[..k][i] == args[i];
          AgreeLit(w2, w, p.next, p.lits[i]);
        }
      }
    }
  }

  lemma {:induction false} TranslationWithin(f: Nnf, n: nat)
    requires Convertible(f) && Within(f, n)
    ensures ClausesWithin(Translation(false, f, n).clauses, Translation(false, f, n).next)
    decreases f, 1
  {
    match f
    case Literal(_) =>
    case Conjunction(args) =>
      TranslateAllWithin(args, n);
    case Disjunction(args) =>
      if |args| == 1 {
        TranslationWithin(args[0], n);
      } else {
        var p := ReifyAll(false, args, n);
        ReifyAllWithin(args, n);
        ClausesWithinAppend(p.clauses, [p.lits], p.next);
      }
  }

  lemma {:induction false} TranslateAllWithin(args: seq<Nnf>, n: nat)
    requires forall i :: 0 <= i < |args| ==> Convertible(args[i]) && Within(args[i], n)
    ensures ClausesWithin(TranslateAll(false, args, n).clauses, TranslateAll(false, args, n).next)
    decreases args, 0
  {
    if |args| > 0 {
      var k := |args| - 1;
      var p := TranslateAll(false, args[..k], n);
      TranslateAllWithin(args[..k], n);
      WithinMono(args[k], n, p.next);
      TranslationWithin(args[k], p.next);
      var t := Translation(false, args[k], p.next);
      ClausesWithinMono(p.clauses, p.next, t.next);
      ClausesWithinAppend(p.clauses, t.clauses, t.next);
    }
  }

  /** The model under which the clauses of `to_cnf` hold: the reification witnesses, argument by argument. */
  function CnfWitness(m: Model, f: Nnf, n: nat): Model
    requires Convertible(f)
    decreases f, 1
  {
    match f
    case Literal(_) => m
    case Conjunction(args) => CnfWitnessAll(m, args, n)
    case Disjunction(args) => if |args| == 1 then CnfWitness(m, args[0], n) else WitnessAll(m, args, n)
  }

  function CnfWitnessAll(m: Model, args: seq<Nnf>, n: nat): Model
    requires forall i :: 0 <= i < |args| ==> Convertible(args[i])
    decreases args, 0
  {
    if |args| == 0 then m
    else
      var k := |args| - 1;
      CnfWitness(CnfWitnessAll(m, args[..k], n), args[k], TranslateAll(false, args[..k], n).next)
  }

  lemma {:induction false} CnfWitnessFrame(m: Model, f: Nnf, n: nat)
    requires Convertible(f)
    ensures Agree(CnfWitness(m, f, n), m, n)
    decreases f, 1
  {
    match f
    case Literal(_) =>
    case Conjunction(args) => CnfWitnessAllFrame(m, args, n);
    case Disjunction(args) =>
      if |args| == 1 {
        CnfWitnessFrame(m, args[0], n);
      } else {
        WitnessAllFrame(m, args, n);
      }
  }

  lemma {:induction false} CnfWitnessAllFrame(m: Model, args: seq<Nnf>, n: nat)
    requires forall i :: 0 <= i < |args| ==> Convertible(args[i])
    ensures Agree(CnfWitnessAll(m, args, n), m, n)
    decreases args, 0
  {
    if |args| > 0 {
      var k := |args| - 1;
      var w := CnfWitnessAll(m, args[..k], n);
      var next := TranslateAll(false, args[..k], n).next;
      CnfWitnessAllFrame(m, args[..k], n);
      CnfWitnessFrame(w, args[k], next);
      AgreeMono(CnfWitness(w, args[k], next), w, next, n);
    }
  }

  /** A model of the formula, extended by the witness, satisfies the clauses of `to_cnf`. */
  lemma {:induction false} TranslationComplete(m: Model, f: Nnf, n: nat)
    requires Convertible(f) && Within(f, n) && Eval(m, f)
    ensures CnfSat(CnfWitness(m, f, n), Translation(false, f, n).clauses)
    decreases f, 1
  {
    match f
    case Literal(l) =>
      CnfSatSingle(m, [l]);
      ClauseSatSingle(m, l);
    case Conjunction(args) =>
      TranslateAllComplete(m, args, n);
    case Disjunction(args) =>
      if |args| == 1 {
        TranslationComplete(m, args[0], n);
      } else {
        var p := ReifyAll(false, args, n);
        var w := WitnessAll(m, args, n);
        WitnessAllComplete(m, args, n);
        var i :| 0 <= i < |args| && Eval(m, args[i]);
        assert LitTrue(w, p.lits[i]);
        CnfSatAppend(w, p.clauses, [p.lits]);
        CnfSatSingle(w, p.lits);
      }
  }

  lemma {:induction false} TranslateAllComplete(m: Model, args: seq<Nnf>, n: nat)
    requires forall i :: 0 <= i < |args| ==> Convertible(args[i]) && Within(args[i], n) && Eval(m, args[i])
    ensures CnfSat(CnfWitnessAll(m, args, n), TranslateAll(false, args, n).clauses)
    decreases args, 0
  {
    if |args| > 0 {
      var k := |args| - 1;
      var p := TranslateAll(false, args[..k], n);
      var w := CnfWitnessAll(m, args[..k], n);
      var t := Translation(false, args[k], p.next);
      var w2 := CnfWitness(w, args[k], p.next);
      TranslateAllComplete(m, args[..k], n);
      CnfWitnessAllFrame(m, args[..k], n);
      AgreeEval(w, m, n, args[k]);
      WithinMono(args[k], n, p.next);
      TranslationComplete(w, args[k], p.next);
      CnfWitnessFrame(w, args[k], p.next);
      TranslateAllWithin(args[..k], n);
      AgreeCnf(w2, w, p.next, p.clauses);
      CnfSatAppend(w2, p.clauses, t.clauses);
    }
  }

  /**
   * `to_cnf` is an equisatisfiable translation: every model of its clauses
   * satisfies the formula, and every model of the formula is, on the
   * variables `1 .. n`, the restriction of a model of the clauses.
   */
  lemma TranslationCorrect(f: Nnf, n: nat)
    requires Convertible(f) && Within(f, n)
    ensures forall m: Model :: CnfSat(m, Translation(false, f, n).clauses) ==> Eval(m, f)
    ensures forall m: Model :: Eval(m, f) ==>
      exists w: Model :: Agree(w, m, n) && CnfSat(w, Translation(false, f, n).clauses)
  {
    forall m: Model | CnfSat(m, Translation(false, f, n).clauses)
      ensures Eval(m, f)
    {
      TranslationSound(m, f, n);
    }
    forall m: Model | Eval(m, f)
      ensures exists w: Model :: Agree(w, m, n) && CnfSat(w, Translation(false, f, n).clauses)
    {
      TranslationComplete(m, f, n);
      CnfWitnessFrame(m, f, n);
    }
  }

  // ---------- the disjunction gate as written, and the sample formulas ----------

  /** `(x1 | x2) | x3` over the variables 1, 2, 3. */
  const NestedOr := Disjunction([Disjunction([Literal(1), Literal(2)]), Literal(3)])

  /** `to_cnf` reifies the inner disjunction with `z = 4` and joins `[4, 3]`, with either gate. */
  lemma NestedOrClauses(written: bool)
    ensures Translation(written, NestedOr, 3).clauses == DisjunctionGate(written, 4, [1, 2]) + [[4, 3]]
  {
    var inner := [Literal(1), Literal(2)];
    assert inner[..1] == [Literal(1)];
    assert ReifyAll(written, inner, 3) == Folded([1, 2], [], 3);
    var args := [Disjunction(inner), Literal(3)];
    assert args[..1] == [Disjunction(inner)];
    assert ReifyAll(written, args[..1], 3) == Folded([4], DisjunctionGate(written, 4, [1, 2]), 4);
    assert ReifyAll(written, args, 3) == Folded([4, 3], DisjunctionGate(written, 4, [1, 2]), 4);
  }

  /** The written disjunction gate on `[1, 2]` with `z = 4`, listed. */
  lemma OrGateWrittenListed()
    ensures OrGateWritten(4, [1, 2]) == [[-4, -1, -2], [4, 1], [4, 2]]
  {
    assert Negs([1, 2]) == [-1, -2];
    assert [-4] + [-1, -2] == [-4, -1, -2];
    assert ImplyEach([4], [1, 2])[0] == [4] + [1] == [4, 1];
    assert ImplyEach([4], [1, 2])[1] == [4] + [2] == [4, 2];
  }

  /**
   * `to_cnf` as written is unsound: the model that makes only `z = 4` true
   * satisfies every clause it emits for `NestedOr`, although it falsifies
   * the formula.
   */
  lemma OrGateWrittenUnsound()
    ensures var m: Model := (v: nat) => v == 4;
      CnfSat(m, Translation(true, NestedOr, 3).clauses) && !Eval(m, NestedOr)
  {
    var m: Model := (v: nat) => v == 4;
    NestedOrClauses(true);
    OrGateWrittenListed();
    var cls := OrGateWritten(4, [1, 2]) + [[4, 3]];
    assert cls == [[-4, -1, -2], [4, 1], [4, 2], [4, 3]];
    assert LitTrue(m, cls[0][1]) && LitTrue(m, cls[1][0]) && LitTrue(m, cls[2][0]) && LitTrue(m, cls[3][0]);
    var inner := [Literal(1), Literal(2)];
    assert !Eval(m, Disjunction(inner)) by {
      assert !Eval(m, inner[0]) && !Eval(m, inner[1]);
    }
    assert !Eval(m, Literal(3));
  }

  /** Three conjoined literals, and the three samples built from them. */
  const And234 := Conjunction([Literal(2), Literal(3), Literal(4)])
  const And123 := Conjunction([Literal(1), Literal(2), Literal(3)])
  const Sample1 := Disjunction([Literal(1), And234])
  const Sample2 := Disjunction([And123, And123])
  const Sample3 := Disjunction([Disjunction([Disjunction([And123])])])

  lemma ThreeLits(a: int, b: int, c: int, n: nat)
    ensures ReifyAll(false, [Literal(a), Literal(b), Literal(c)], n) == Folded([a, b, c], [], n)
  {
    var args := [Literal(a), Literal(b), Literal(c)];
    assert args[..2][..1] == [Literal(a)] && args[..2] == [Literal(a), Literal(b)];
    assert ReifyAll(false, args[..2][..1], n) == Folded([a], [], n);
    assert ReifyAll(false, args[..2], n) == Folded([a, b], [], n);
  }

  /** `or(x1, and(x2, x3, x4))` gives 5 clauses: the AND gate on `z = 5` and one joining clause. */
  lemma Sample1Count()
    ensures |Translation(false, Sample1, 4).clauses| == 5
  {
    ThreeLits(2, 3, 4, 4);
    var args := [Literal(1), And234];
    assert args[..1] == [Literal(1)];
    assert ReifyAll(false, args[..1], 4) == Folded([1], [], 4);
    assert Reification(false, And234, 4).clauses == AndGate(5, [2, 3, 4]);
  }

  /** `or(and(x1, x2, x3), and(x1, x2, x3))` gives 9 clauses: two AND gates and one joining clause. */
  lemma Sample2Count()
    ensures |Translation(false, Sample2, 3).clauses| == 9
  {
    ThreeLits(1, 2, 3, 3);
    ThreeLits(1, 2, 3, 4);
    var args := [And123, And123];
    assert args[..1] == [And123];
    assert Reification(false, And123, 3).clauses == AndGate(4, [1, 2, 3]);
    assert ReifyAll(false, args[..1], 3).clauses == AndGate(4, [1, 2, 3]) && ReifyAll(false, args[..1], 3).next == 4;
    assert Reification(false, And123, 4).clauses == AndGate(5, [1, 2, 3]);
  }

  /** `or(or(or(and(x1, x2, x3))))` gives the 3 unit clauses of the conjunction. */
  lemma Sample3Count()
    ensures Convertible(Sample3) && |Translation(false, Sample3, 3).clauses| == 3
  {
    var lits := [Literal(1), Literal(2), Literal(3)];
    assert lits[..2][..1] == [Literal(1)] && lits[..2] == [Literal(1), Literal(2)];
    assert TranslateAll(false, lits[..2][..1], 3).clauses == [[1]];
    assert TranslateAll(false, lits[..2], 3).clauses == [[1], [2]];
    var d1 := Disjunction([And123]);
    var d2 := Disjunction([d1]);
    assert Convertible(And123) && Convertible(d1) && Convertible(d2) && Convertible(Sample3);
    assert Translation(false, Sample3, 3) == Translation(false, d2, 3) == Translation(false, d1, 3) == Translation(false, And123, 3);
    assert Translation(false, And123, 3) == TranslateAll(false, lits, 3);
  }

  // ---------- the methods ----------

  /** `ReificationContext`: the number of variables handed out so far. */
  class ReificationContext {
    var nvars: nat

    constructor (nvars: nat)
      ensures this.nvars == nvars
    {
      this.nvars := nvars;
    }

    /** `new_var`: the next variable, one past the previous count. */
    method NewVar() returns (v: nat)
      modifies this
      ensures nvars == old(nvars) + 1 && v == nvars
    {
      nvars := nvars + 1;
      v := nvars;
    }
  }

  /** `NNF::reify`. */
  method Reify(f: Nnf, ctx: ReificationContext) returns (lit: int, clauses: seq<seq<int>>)
    requires Reifiable(f)
    modifies ctx
    ensures Reified(lit, clauses, ctx.nvars) == Reification(false, f, old(ctx.nvars))
    decreases f, 1
  {
    match f
    case Literal(l) =>
      lit, clauses := l, [];
    case Conjunction(args) =>
      if |args| == 1 {
        lit, clauses := Reify(args[0], ctx);
      } else {
        var lits;
        lits, clauses := ReifyArgs(args, ctx);
        var z := ctx.NewVar();
        var gate := AndClauses(z, lits);
        clauses := clauses + gate;
        lit := z;
      }
    case Disjunction(args) =>
      if |args| == 1 {
        lit, clauses := Reify(args[0], ctx);
      } else {
        var lits;
        lits, clauses := ReifyArgs(args, ctx);
        var z := ctx.NewVar();
        var gate := OrClauses(z, lits);
        clauses := clauses + gate;
        lit := z;
      }
  }

  /** The loop of `reify` (and of `to_cnf` on a disjunction) over the arguments. */
  method ReifyArgs(args: seq<Nnf>, ctx: ReificationContext) returns (lits: seq<int>, clauses: seq<seq<int>>)
    requires forall i :: 0 <= i < |args| ==> Reifiable(args[i])
    modifies ctx
    ensures Folded(lits, clauses, ctx.nvars) == ReifyAll(false, args, old(ctx.nvars))
    decreases args, 0
  {
    lits, clauses := [], [];
    for i := 0 to |args|
      invariant Folded(lits, clauses, ctx.nvars) == ReifyAll(false, args[..i], old(ctx.nvars))
    {
      var u, cls := Reify(args[i], ctx);
      clauses := clauses + cls;
      lits := lits + [u];
      assert args[..i + 1][..i] == args[..i];
    }
    assert args[..|args|] == args;
  }

  lemma ImplyEachSnoc(prefix: seq<int>, xs: seq<int>, x: int)
    ensures ImplyEach(prefix, xs + [x]) == ImplyEach(prefix, xs) + [prefix + [x]]
  {
    assert forall i :: 0 <= i < |xs| ==> (xs + [x])[i] == xs[i];
  }

  /** The conjunction branch of `reify`: the long clause, then one binary clause per literal. */
  method AndClauses(z: int, lits: seq<int>) returns (clauses: seq<seq<int>>)
    ensures clauses == AndGate(z, lits)
  {
    var cl := [z];
    for j := 0 to |lits|
      invariant cl == [z] + Negs(lits[..j])
    {
      cl := cl + [-lits[j]];
      assert Negs(lits[..j + 1]) == Negs(lits[..j]) + [-lits[j]];
    }
    assert lits[..|lits|] == lits;
    clauses := [cl];
    for j := 0 to |lits|
      invariant clauses == [cl] + ImplyEach([-z], lits[..j])
    {
      clauses := clauses + [[-z, lits[j]]];
      assert lits[..j + 1] == lits[..j] + [lits[j]];
      ImplyEachSnoc([-z], lits[..j], lits[j]);
      assert [-z] + [lits[j]] == [-z, lits[j]];
      AppendAssoc([cl], ImplyEach([-z], lits[..j]), [[-z, lits[j]]]);
    }
  }

  /** The disjunction branch of `reify`, with the signs of `OrGate`. */
  method OrClauses(z: int, lits: seq<int>) returns (clauses: seq<seq<int>>)
    ensures clauses == OrGate(z, lits)
  {
    var cl := [-z];
    for j := 0 to |lits|
      invariant cl == [-z] + lits[..j]
    {
      cl := cl + [lits[j]];
      assert lits[..j + 1] == lits[..j] + [lits[j]];
    }
    assert lits[..|lits|] == lits;
    clauses := [cl];
    for j := 0 to |lits|
      invariant clauses == [cl] + ImplyEach([z], Negs(lits[..j]))
    {
      clauses := clauses + [[z, -lits[j]]];
      assert Negs(lits[..j + 1]) == Negs(lits[..j]) + [-lits[j]];
      ImplyEachSnoc([z], Negs(lits[..j]), -lits[j]);
      assert [z] + [-lits[j]] == [z, -lits[j]];
      AppendAssoc([cl], ImplyEach([z], Negs(lits[..j])), [[z, -lits[j]]]);
    }
    assert lits[..|lits|] == lits;
  }

  /** `NNF::to_cnf`. */
  method ToCnf(f: Nnf, ctx: ReificationContext) returns (cnf: seq<seq<int>>)
    requires Convertible(f)
    modifies ctx
    ensures Translated(cnf, ctx.nvars) == Translation(false, f, old(ctx.nvars))
    decreases f, 1
  {
    match f
    case Literal(l) =>
      cnf := [[l]];
    case Conjunction(args) =>
      cnf := [];
      for i := 0 to |args|
        invariant Translated(cnf, ctx.nvars) == TranslateAll(false, args[..i], old(ctx.nvars))
      {
        var c := ToCnf(args[i], ctx);
        cnf := cnf + c;
        assert args[..i + 1][..i] == args[..i];
      }
      assert args[..|args|] == args;
    case Disjunction(args) =>
      if |args| == 1 {
        cnf := ToCnf(args[0], ctx);
      } else {
        var clause;
        clause, cnf := ReifyArgs(args, ctx);
        cnf := cnf + [clause];
      }
  }
}
