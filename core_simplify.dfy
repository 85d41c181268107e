/**
 * The rewriting simplifier of lib/core/src/formula/simplify.rs. One step
 * walks an expression once: it drops double negations, pushes a negation
 * into a conjunction or disjunction by De Morgan's laws, folds the
 * negation of a constant, and lifts the arguments of a nested conjunction
 * (disjunction) into the enclosing one. A flag records whether a rewrite
 * happened; `simplify` repeats steps until one reports none.
 *
 * The functions specify one step and the fix-point; the `Simplifier` class
 * follows the source's recursive methods and loops and is proved against
 * them.
 */
module CoreSimplify {
  import opened Wrappers
  import opened CoreExpr
  import Seqs

  /** The expression one step produces and whether it set the `changed` flag. */
  datatype Outcome<T> = Outcome(expr: Expr<T>, changed: bool)
  datatype Outcomes<T> = Outcomes(exprs: seq<Expr<T>>, changed: bool)

  /** `e` is the kind of junction consolidation lifts: a conjunction when `conj`, a disjunction otherwise. */
  predicate SameJunction<T>(e: Expr<T>, conj: bool)
  {
    if conj then e.And? else e.Or?
  }

  /** `Simplifier::step`. */
  function Rewrite<T>(e: Expr<T>): Outcome<T>
    decreases e, 2
  {
    match e
    case Not(outer) =>
      (match outer
       case Const(b) => Outcome(Const(!b), false)
       case Not(inner) => Outcome(inner, true)
       case And(args) => Outcome(MkOr(NegateEach(args)), true)
       case Or(args) => Outcome(MkAnd(NegateEach(args)), true)
       case Terminal(_) => Outcome(e, false))
    case And(args) =>
      var l := Lift(args, true);
      Outcome(MkAnd(l.exprs), l.changed)
    case Or(args) =>
      var l := Lift(args, false);
      Outcome(MkOr(l.exprs), l.changed)
    case _ => Outcome(e, false)
  }

  /** Every argument stepped, in order (`map(|x| self.step(x))`). */
  function StepEach<T>(args: seq<Expr<T>>): Outcomes<T>
    decreases args, 1
  {
    if |args| == 0 then Outcomes([], false)
    else
      var p := StepEach(args[..|args| - 1]);
      var o := Rewrite(args[|args| - 1]);
      Outcomes(p.exprs + [o.expr], p.changed || o.changed)
  }

  /** The De Morgan arguments: every argument stepped and then negated. */
  function NegateEach<T>(args: seq<Expr<T>>): seq<Expr<T>>
    decreases args, 1
  {
    if |args| == 0 then []
    else NegateEach(args[..|args| - 1]) + [Not(Rewrite(args[|args| - 1]).expr)]
  }

  /**
   * `consolidate_and` (`conj`) and `consolidate_or`: an argument of the same
   * kind contributes its own arguments, stepped, and counts as a change;
   * any other argument is stepped in place.
   */
  function Lift<T>(args: seq<Expr<T>>, conj: bool): Outcomes<T>
    decreases args, 1
  {
    if |args| == 0 then Outcomes([], false)
    else
      var p := Lift(args[..|args| - 1], conj);
      var x := args[|args| - 1];
      if SameJunction(x, conj) then
        Outcomes(p.exprs + StepEach(x.args).exprs, true)
      else
        var o := Rewrite(x);
        Outcomes(p.exprs + [o.expr], p.changed || o.changed)
  }

  // ---------- a step never grows the expression, and a change shrinks it ----------

  /** A size in which a negation counts twice its argument, so that De Morgan's laws shrink. */
  function Weight<T>(e: Expr<T>): (w: nat)
    ensures w >= 1
    decreases e, 1
  {
    match e
    case Const(_) => 1
    case Terminal(_) => 1
    case Not(arg) => 2 * Weight(arg)
    case And(args) => 1 + WeightAll(args)
    case Or(args) => 1 + WeightAll(args)
  }

  function WeightAll<T>(args: seq<Expr<T>>): nat
    decreases args, 0
  {
    if |args| == 0 then 0 else WeightAll(args[..|args| - 1]) + Weight(args[|args| - 1])
  }

  lemma {:induction false} WeightAllAppend<T>(a: seq<Expr<T>>, b: seq<Expr<T>>)
    ensures WeightAll(a + b) == WeightAll(a) + WeightAll(b)
    decreases |b|
  {
    if |b| == 0 {
      assert a + b == a;
    } else {
      assert (a + b)[..|a + b| - 1] == a + b[..|b| - 1];
      WeightAllAppend(a, b[..|b| - 1]);
    }
  }

  lemma WeightAllSingle<T>(x: Expr<T>)
    ensures WeightAll([x]) == Weight(x)
  {
    assert [x][..0] == [];
  }

  /** `Expr::and` and `Expr::or` weigh no more than the junction they replace. */
  lemma JunctionWeight<T>(args: seq<Expr<T>>)
    ensures Weight(MkAnd(args)) <= 1 + WeightAll(args)
    ensures Weight(MkOr(args)) <= 1 + WeightAll(args)
  {
    if |args| == 1 {
      assert args == [args[0]];
      WeightAllSingle(args[0]);
    }
  }

  lemma {:induction false} RewriteWeight<T>(e: Expr<T>)
    ensures Weight(Rewrite(e).expr) <= Weight(e)
    ensures Rewrite(e).changed ==> Weight(Rewrite(e).expr) < Weight(e)
    decreases e, 2
  {
    match e
    case Not(outer) =>
      match outer {
        case Const(b) =>
        case Not(inner) =>
        case And(args) =>
          NegateEachWeight(args);
          JunctionWeight(NegateEach(args));
        case Or(args) =>
          NegateEachWeight(args);
          JunctionWeight(NegateEach(args));
        case Terminal(_) =>
      }
    case And(args) =>
      LiftWeight(args, true);
      JunctionWeight(Lift(args, true).exprs);
    case Or(args) =>
      LiftWeight(args, false);
      JunctionWeight(Lift(args, false).exprs);
    case Const(_) =>
    case Terminal(_) =>
  }

  lemma {:induction false} StepEachWeight<T>(args: seq<Expr<T>>)
    ensures WeightAll(StepEach(args).exprs) <= WeightAll(args)
    ensures StepEach(args).changed ==> WeightAll(StepEach(args).exprs) < WeightAll(args)
    decreases args, 1
  {
    if |args| > 0 {
      var p := args[..|args| - 1];
      var x := args[|args| - 1];
      StepEachWeight(p);
      RewriteWeight(x);
      WeightAllAppend(StepEach(p).exprs, [Rewrite(x).expr]);
      WeightAllSingle(Rewrite(x).expr);
    }
  }

  lemma {:induction false} NegateEachWeight<T>(args: seq<Expr<T>>)
    ensures WeightAll(NegateEach(args)) <= 2 * WeightAll(args)
    decreases args, 1
  {
    if |args| > 0 {
      var p := args[..|args| - 1];
      var x := args[|args| - 1];
      NegateEachWeight(p);
      RewriteWeight(x);
      WeightAllAppend(NegateEach(p), [Not(Rewrite(x).expr)]);
      WeightAllSingle(Not(Rewrite(x).expr));
    }
  }

  lemma {:induction false} LiftWeight<T>(args: seq<Expr<T>>, conj: bool)
    ensures WeightAll(Lift(args, conj).exprs) <= WeightAll(args)
    ensures Lift(args, conj).changed ==> WeightAll(Lift(args, conj).exprs) < WeightAll(args)
    decreases args, 1
  {
    if |args| > 0 {
      var p := args[..|args| - 1];
      var x := args[|args| - 1];
      LiftWeight(p, conj);
      if SameJunction(x, conj) {
        StepEachWeight(x.args);
        WeightAllAppend(Lift(p, conj).exprs, StepEach(x.args).exprs);
      } else {
        RewriteWeight(x);
        WeightAllAppend(Lift(p, conj).exprs, [Rewrite(x).expr]);
        WeightAllSingle(Rewrite(x).expr);
      }
    }
  }

  // ---------- a step keeps the value, panics included ----------

  /** `p + [x]` evaluates `x` only when every argument of `p` has the value `unit`. */
  lemma EvalSeqSnoc<T>(p: seq<Expr<T>>, x: Expr<T>, mapping: map<T, bool>, unit: bool)
    ensures EvalSeq(p + [x], mapping, unit) ==
      if EvalSeq(p, mapping, unit) == Some(unit) then Eval(x, mapping) else EvalSeq(p, mapping, unit)
  {
    EvalSeqAppend(p, [x], mapping, unit);
    EvalSeqSingle(x, mapping, unit);
  }

  lemma {:induction false} RewriteEval<T>(e: Expr<T>, mapping: map<T, bool>)
    ensures Eval(Rewrite(e).expr, mapping) == Eval(e, mapping)
    decreases e, 2
  {
    match e
    case Not(outer) =>
      match outer {
        case Const(b) =>
        case Not(inner) =>
        case And(args) =>
          NegateEachEval(args, mapping, true);
          MkOrEval(NegateEach(args), mapping);
        case Or(args) =>
          NegateEachEval(args, mapping, false);
          MkAndEval(NegateEach(args), mapping);
        case Terminal(_) =>
      }
    case And(args) =>
      LiftEval(args, mapping, true);
      MkAndEval(Lift(args, true).exprs, mapping);
    case Or(args) =>
      LiftEval(args, mapping, false);
      MkOrEval(Lift(args, false).exprs, mapping);
    case Const(_) =>
    case Terminal(_) =>
  }

  lemma {:induction false} StepEachEval<T>(args: seq<Expr<T>>, mapping: map<T, bool>, unit: bool)
    ensures EvalSeq(StepEach(args).exprs, mapping, unit) == EvalSeq(args, mapping, unit)
    decreases args, 1
  {
    if |args| > 0 {
      var p := args[..|args| - 1];
      var x := args[|args| - 1];
      assert args == p + [x];
      StepEachEval(p, mapping, unit);
      RewriteEval(x, mapping);
      EvalSeqSnoc(StepEach(p).exprs, Rewrite(x).expr, mapping, unit);
      EvalSeqSnoc(p, x, mapping, unit);
    }
  }

  /** De Morgan: the negated, stepped arguments under the dual junction have the opposite value. */
  lemma {:induction false} NegateEachEval<T>(args: seq<Expr<T>>, mapping: map<T, bool>, unit: bool)
    ensures EvalSeq(NegateEach(args), mapping, !unit) == Negate(EvalSeq(args, mapping, unit))
    decreases args, 1
  {
    if |args| > 0 {
      var p := args[..|args| - 1];
      var x := args[|args| - 1];
      assert args == p + [x];
      NegateEachEval(p, mapping, unit);
      RewriteEval(x, mapping);
      EvalSeqSnoc(NegateEach(p), Not(Rewrite(x).expr), mapping, !unit);
      EvalSeqSnoc(p, x, mapping, unit);
    }
  }

  lemma {:induction false} LiftEval<T>(args: seq<Expr<T>>, mapping: map<T, bool>, conj: bool)
    ensures EvalSeq(Lift(args, conj).exprs, mapping, conj) == EvalSeq(args, mapping, conj)
    decreases args, 1
  {
    if |args| > 0 {
      var p := args[..|args| - 1];
      var x := args[|args| - 1];
      assert args == p + [x];
      LiftEval(p, mapping, conj);
      EvalSeqSnoc(p, x, mapping, conj);
      if SameJunction(x, conj) {
        StepEachEval(x.args, mapping, conj);
        EvalSeqAppend(Lift(p, conj).exprs, StepEach(x.args).exprs, mapping, conj);
      } else {
        RewriteEval(x, mapping);
        EvalSeqSnoc(Lift(p, conj).exprs, Rewrite(x).expr, mapping, conj);
      }
    }
  }

  // ---------- the fix-point ----------

  /** `simplify`: steps until one sets no change; each change shrinks the weight, so this ends. */
  function Simplified<T>(e: Expr<T>): Expr<T>
    decreases Weight(e)
  {
    var o := Rewrite(e);
    if o.changed then
      RewriteWeight(e);
      Simplified(o.expr)
    else o.expr
  }

  /** `simplify` keeps the value of the expression under every mapping, panics included. */
  lemma {:induction false} SimplifiedEval<T>(e: Expr<T>, mapping: map<T, bool>)
    ensures Eval(Simplified(e), mapping) == Eval(e, mapping)
    decreases Weight(e)
  {
    RewriteEval(e, mapping);
    if Rewrite(e).changed {
      RewriteWeight(e);
      SimplifiedEval(Rewrite(e).expr, mapping);
    }
  }

  /** The struct holding the `changed` flag; its methods follow the source's recursion and loops. */
  class Simplifier<T> {
    var changed: bool

    /** `Simplifier::new`. */
    constructor ()
      ensures !changed
    {
      changed := false;
    }

    /** `step`: sets `changed` exactly when the step it performs rewrites something. */
    method Step(e: Expr<T>) returns (r: Expr<T>)
      modifies this
      ensures r == Rewrite(e).expr
      ensures changed == (old(changed) || Rewrite(e).changed)
      decreases e, 2
    {
      match e {
        case Not(outer) =>
          match outer {
            case Const(b) =>
              r := Const(!b);
            case Not(inner) =>
              changed := true;
              r := inner;
            case And(args) =>
              r := DeMorgan(args, true);
            case Or(args) =>
              r := DeMorgan(args, false);
            case Terminal(_) =>
              r := e;
          }
        case And(args) =>
          r := Consolidate(args, true);
        case Or(args) =>
          r := Consolidate(args, false);
        case Const(_) =>
          r := e;
        case Terminal(_) =>
          r := e;
      }
    }

    /** `consolidate_and` (`conj`) and `consolidate_or`. */
    method Consolidate(args: seq<Expr<T>>, conj: bool) returns (r: Expr<T>)
      modifies this
      ensures r == (if conj then MkAnd(Lift(args, conj).exprs) else MkOr(Lift(args, conj).exprs))
      ensures changed == (old(changed) || Lift(args, conj).changed)
      decreases args, 1
    {
      var newArgs: seq<Expr<T>> := [];
      for i := 0 to |args|
        invariant newArgs == Lift(args[..i], conj).exprs
        invariant changed == (old(changed) || Lift(args[..i], conj).changed)
      {
        assert args[..i + 1][..i] == args[..i];
        var arg := args[i];
        if SameJunction(arg, conj) {
          changed := true;
          var sub := arg.args;
          ghost var before := newArgs;
          for j := 0 to |sub|
            invariant newArgs == before + StepEach(sub[..j]).exprs
            invariant changed
          {
            assert sub[..j + 1][..j] == sub[..j];
            var x := Step(sub[j]);
            Seqs.AppendAssoc(before, StepEach(sub[..j]).exprs, [x]);
            newArgs := newArgs + [x];
          }
          assert sub[..|sub|] == sub;
        } else {
          var x := Step(arg);
          newArgs := newArgs + [x];
        }
      }
      assert args[..|args|] == args;
      r := if conj then MkAnd(newArgs) else MkOr(newArgs);
    }

    /** `de_morgan_and` (`conj`) and `de_morgan_or`: always a change. */
    method DeMorgan(args: seq<Expr<T>>, conj: bool) returns (r: Expr<T>)
      modifies this
      ensures r == (if conj then MkOr(NegateEach(args)) else MkAnd(NegateEach(args)))
      ensures changed
      decreases args, 1
    {
      changed := true;
      var newArgs: seq<Expr<T>> := [];
      for i := 0 to |args|
        invariant newArgs == NegateEach(args[..i])
        invariant changed
      {
        assert args[..i + 1][..i] == args[..i];
        var x := Step(args[i]);
        newArgs := newArgs + [Not(x)];
      }
      assert args[..|args|] == args;
      r := if conj then MkOr(newArgs) else MkAnd(newArgs);
    }
  }

  /** `simplify`: the loop of steps, proved to end and to compute the fix-point. */
  method Simplify<T>(e: Expr<T>) returns (r: Expr<T>)
    ensures r == Simplified(e)
  {
    var simplifier := new Simplifier<T>();
    simplifier.changed := true;
    r := e;
    while simplifier.changed
      invariant simplifier.changed ==> Simplified(r) == Simplified(e)
      invariant !simplifier.changed ==> r == Simplified(e)
      decreases Weight(r) + (if simplifier.changed then 1 else 0)
    {
      simplifier.changed := false;
      RewriteWeight(r);
      r := simplifier.Step(r);
    }
  }

  // ---------- the expressions of the tests ----------

  function T(v: int): Expr<int>
  {
    Terminal(v)
  }

  /** One more argument for consolidation, as the source's loop meets it. */
  lemma LiftSnoc<T>(p: seq<Expr<T>>, x: Expr<T>, conj: bool)
    ensures Lift(p + [x], conj) ==
      if SameJunction(x, conj) then Outcomes(Lift(p, conj).exprs + StepEach(x.args).exprs, true)
      else Outcomes(Lift(p, conj).exprs + [Rewrite(x).expr], Lift(p, conj).changed || Rewrite(x).changed)
  {
    assert (p + [x])[..|p|] == p;
  }

  lemma StepEachSnoc<T>(p: seq<Expr<T>>, x: Expr<T>)
    ensures StepEach(p + [x]) == Outcomes(StepEach(p).exprs + [Rewrite(x).expr], StepEach(p).changed || Rewrite(x).changed)
  {
    assert (p + [x])[..|p|] == p;
  }

  /** Arguments that are all terminals are kept as they are, with no change. */
  lemma {:induction false} LiftTerminals<T>(ts: seq<Expr<T>>, conj: bool)
    requires forall i :: 0 <= i < |ts| ==> ts[i].Terminal?
    ensures Lift(ts, conj) == Outcomes(ts, false)
    ensures StepEach(ts) == Outcomes(ts, false)
    decreases |ts|
  {
    if |ts| > 0 {
      var p := ts[..|ts| - 1];
      LiftTerminals(p, conj);
      assert ts == p + [ts[|ts| - 1]];
      LiftSnoc(p, ts[|ts| - 1], conj);
      StepEachSnoc(p, ts[|ts| - 1]);
    }
  }

  /** `1 & (2 | 3) & (4 & 5) & 6 & (7)` flattens to `1 & (2 | 3) & 4 & 5 & 6 & 7` in one step. */
  lemma SimplifyAnd()
    ensures Simplified(And([T(1), Or([T(2), T(3)]), And([T(4), T(5)]), T(6), And([T(7)])])) ==
      And([T(1), Or([T(2), T(3)]), T(4), T(5), T(6), T(7)])
  {
    SimplifyAndFirst();
    SimplifyAndSecond();
  }

  lemma SimplifyAndFirst()
    ensures Rewrite(And([T(1), Or([T(2), T(3)]), And([T(4), T(5)]), T(6), And([T(7)])])) ==
      Outcome(And([T(1), Or([T(2), T(3)]), T(4), T(5), T(6), T(7)]), true)
  {
    var or23 := Or([T(2), T(3)]);
    var and45 := And([T(4), T(5)]);
    LiftTerminals([T(2), T(3)], false);
    assert Rewrite(or23) == Outcome(or23, false);
    LiftTerminals([T(4), T(5)], true);
    LiftTerminals([T(7)], true);
    LiftTerminals([T(1)], true);
    LiftSnoc([T(1)], or23, true);
    assert [T(1)] + [or23] == [T(1), or23];
    LiftSnoc([T(1), or23], and45, true);
    assert [T(1), or23] + [and45] == [T(1), or23, and45];
    assert [T(1), or23] + [T(4), T(5)] == [T(1), or23, T(4), T(5)];
    LiftSnoc([T(1), or23, and45], T(6), true);
    assert [T(1), or23, and45] + [T(6)] == [T(1), or23, and45, T(6)];
    assert [T(1), or23, T(4), T(5)] + [T(6)] == [T(1), or23, T(4), T(5), T(6)];
    LiftSnoc([T(1), or23, and45, T(6)], And([T(7)]), true);
    assert [T(1), or23, and45, T(6)] + [And([T(7)])] == [T(1), or23, and45, T(6), And([T(7)])];
    assert [T(1), or23, T(4), T(5), T(6)] + [T(7)] == [T(1), or23, T(4), T(5), T(6), T(7)];
  }

  lemma SimplifyAndSecond()
    ensures Rewrite(And([T(1), Or([T(2), T(3)]), T(4), T(5), T(6), T(7)])) ==
      Outcome(And([T(1), Or([T(2), T(3)]), T(4), T(5), T(6), T(7)]), false)
  {
    var or23 := Or([T(2), T(3)]);
    LiftTerminals([T(2), T(3)], false);
    assert Rewrite(or23) == Outcome(or23, false);
    LiftTerminals([T(1)], true);
    LiftSnoc([T(1)], or23, true);
    assert [T(1)] + [or23] == [T(1), or23];
    LiftSnoc([T(1), or23], T(4), true);
    assert [T(1), or23] + [T(4)] == [T(1), or23, T(4)];
    LiftSnoc([T(1), or23, T(4)], T(5), true);
    assert [T(1), or23, T(4)] + [T(5)] == [T(1), or23, T(4), T(5)];
    LiftSnoc([T(1), or23, T(4), T(5)], T(6), true);
    assert [T(1), or23, T(4), T(5)] + [T(6)] == [T(1), or23, T(4), T(5), T(6)];
    LiftSnoc([T(1), or23, T(4), T(5), T(6)], T(7), true);
    assert [T(1), or23, T(4), T(5), T(6)] + [T(7)] == [T(1), or23, T(4), T(5), T(6), T(7)];
  }

  /** `1 | (2 | (3 | (4 | !(!5 & !6))))`: De Morgan and three rounds of lifting end in `1 | 2 | 3 | 4 | 5 | 6`. */
  lemma SimplifyNested()
    ensures Simplified(Or([T(1), Or([T(2), Or([T(3), Or([T(4), Not(And([Not(T(5)), Not(T(6))]))])])])])) ==
      Or([T(1), T(2), T(3), T(4), T(5), T(6)])
  {
    NestedFirst();
    NestedSecond();
    NestedThird();
    NestedFourth();
  }

  /** The negated double negations of the De Morgan step. */
  function NotNot56(): Expr<int>
  {
    Or([Not(Not(T(5))), Not(Not(T(6)))])
  }

  /** De Morgan on `!(!5 & !6)`, with the inner negations stepped to themselves. */
  lemma NestedDeMorgan()
    ensures Rewrite(Not(And([Not(T(5)), Not(T(6))]))) == Outcome(NotNot56(), true)
  {
    assert NegateEach([Not(T(5)), Not(T(6))]) == [Not(Not(T(5))), Not(Not(T(6)))] by {
      assert [Not(T(5)), Not(T(6))][..1] == [Not(T(5))];
    }
  }

  lemma NestedInner()
    ensures Rewrite(Or([T(3), Or([T(4), Not(And([Not(T(5)), Not(T(6))]))])])) ==
      Outcome(Or([T(3), T(4), NotNot56()]), true)
  {
    var d := Not(And([Not(T(5)), Not(T(6))]));
    NestedDeMorgan();
    StepEachSnoc([T(4)], d);
    LiftTerminals([T(4)], false);
    assert [T(4)] + [d] == [T(4), d];
    assert StepEach([T(4), d]) == Outcomes([T(4), NotNot56()], true);
    LiftTerminals([T(3)], false);
    LiftSnoc([T(3)], Or([T(4), d]), false);
    assert [T(3)] + [Or([T(4), d])] == [T(3), Or([T(4), d])];
    assert [T(3)] + [T(4), NotNot56()] == [T(3), T(4), NotNot56()];
  }

  lemma NestedFirst()
    ensures Rewrite(Or([T(1), Or([T(2), Or([T(3), Or([T(4), Not(And([Not(T(5)), Not(T(6))]))])])])])) ==
      Outcome(Or([T(1), T(2), Or([T(3), T(4), NotNot56()])]), true)
  {
    var inner := Or([T(3), Or([T(4), Not(And([Not(T(5)), Not(T(6))]))])]);
    NestedInner();
    LiftTerminals([T(2)], false);
    StepEachSnoc([T(2)], inner);
    assert [T(2)] + [inner] == [T(2), inner];
    assert [T(2)] + [Or([T(3), T(4), NotNot56()])] == [T(2), Or([T(3), T(4), NotNot56()])];
    LiftTerminals([T(1)], false);
    LiftSnoc([T(1)], Or([T(2), inner]), false);
    assert [T(1)] + [Or([T(2), inner])] == [T(1), Or([T(2), inner])];
    assert [T(1)] + [T(2), Or([T(3), T(4), NotNot56()])] == [T(1), T(2), Or([T(3), T(4), NotNot56()])];
  }

  /** The double negations drop, and the disjunction of them is `5 | 6`. */
  lemma NestedDoubleNegations()
    ensures Rewrite(NotNot56()) == Outcome(Or([T(5), T(6)]), true)
  {
    LiftSnoc([], Not(Not(T(5))), false);
    assert [] + [Not(Not(T(5)))] == [Not(Not(T(5)))];
    LiftSnoc([Not(Not(T(5)))], Not(Not(T(6))), false);
    assert [Not(Not(T(5)))] + [Not(Not(T(6)))] == NotNot56().args;
    assert Lift(NotNot56().args, false) == Outcomes([T(5), T(6)], true);
  }

  lemma NestedSecond()
    ensures Rewrite(Or([T(1), T(2), Or([T(3), T(4), NotNot56()])])) ==
      Outcome(Or([T(1), T(2), T(3), T(4), Or([T(5), T(6)])]), true)
  {
    LiftTerminals([T(1), T(2)], false);
    LiftTerminals([T(3), T(4)], false);
    StepEachSnoc([T(3), T(4)], NotNot56());
    assert [T(3), T(4)] + [NotNot56()] == [T(3), T(4), NotNot56()];
    NestedDoubleNegations();
    assert [T(3), T(4)] + [Or([T(5), T(6)])] == [T(3), T(4), Or([T(5), T(6)])];
    LiftSnoc([T(1), T(2)], Or([T(3), T(4), NotNot56()]), false);
    assert [T(1), T(2)] + [Or([T(3), T(4), NotNot56()])] == [T(1), T(2), Or([T(3), T(4), NotNot56()])];
    assert [T(1), T(2)] + [T(3), T(4), Or([T(5), T(6)])] == [T(1), T(2), T(3), T(4), Or([T(5), T(6)])];
  }

  lemma NestedThird()
    ensures Rewrite(Or([T(1), T(2), T(3), T(4), Or([T(5), T(6)])])) ==
      Outcome(Or([T(1), T(2), T(3), T(4), T(5), T(6)]), true)
  {
    LiftTerminals([T(1), T(2), T(3), T(4)], false);
    LiftTerminals([T(5), T(6)], false);
    LiftSnoc([T(1), T(2), T(3), T(4)], Or([T(5), T(6)]), false);
    assert [T(1), T(2), T(3), T(4)] + [Or([T(5), T(6)])] == [T(1), T(2), T(3), T(4), Or([T(5), T(6)])];
    assert [T(1), T(2), T(3), T(4)] + [T(5), T(6)] == [T(1), T(2), T(3), T(4), T(5), T(6)];
  }

  lemma NestedFourth()
    ensures Rewrite(Or([T(1), T(2), T(3), T(4), T(5), T(6)])) == Outcome(Or([T(1), T(2), T(3), T(4), T(5), T(6)]), false)
  {
    LiftTerminals([T(1), T(2), T(3), T(4), T(5), T(6)], false);
  }

  /**
   * A step that reports no change may still leave work for another: the
   * single-argument conjunction collapses to the disjunction it holds, but
   * collapsing is not counted as a change, so `simplify` returns
   * `(1 | 2) | 3` without lifting `1 | 2`.
   */
  lemma SimplifyStopsEarly()
    ensures Simplified(Or([And([Or([T(1), T(2)])]), T(3)])) == Or([Or([T(1), T(2)]), T(3)])
    ensures Rewrite(Or([Or([T(1), T(2)]), T(3)])).changed
  {
    var or12 := Or([T(1), T(2)]);
    LiftTerminals([T(1), T(2)], false);
    assert Rewrite(or12) == Outcome(or12, false);
    LiftSnoc([], or12, true);
    assert [] + [or12] == [or12];
    assert Rewrite(And([or12])) == Outcome(or12, false);
    LiftSnoc([], And([or12]), false);
    assert [] + [And([or12])] == [And([or12])];
    LiftSnoc([And([or12])], T(3), false);
    assert [And([or12])] + [T(3)] == [And([or12]), T(3)];
    assert [or12] + [T(3)] == [or12, T(3)];
    assert Rewrite(Or([And([or12]), T(3)])) == Outcome(Or([or12, T(3)]), false);
    LiftSnoc([], or12, false);
    assert Lift([or12], false).changed;
    LiftSnoc([or12], T(3), false);
    assert [or12] + [T(3)] == [or12, T(3)];
  }
}
