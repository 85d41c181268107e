/**
 * Boolean expression trees over terminals of any type
 * (lib/core/src/formula/expr.rs): constants, terminals, negation and n-ary
 * conjunction and disjunction; their evaluation under a partial mapping of
 * terminals to truth values, the flattening `&` and `|` operators and the
 * conversion of expressions over variables to negation normal form.
 */
module CoreExpr {
  import opened Wrappers
  import opened Semantics
  import CoreNnf

  datatype Expr<T> =
    | Const(value: bool)
    | Terminal(v: T)
    | Not(arg: Expr<T>)
    | And(args: seq<Expr<T>>)
    | Or(args: seq<Expr<T>>)

  /** `Expr::and`: a single argument is returned as it is; any other number of them, none included, is wrapped. */
  function MkAnd<T>(args: seq<Expr<T>>): Expr<T>
  {
    if |args| == 1 then args[0] else And(args)
  }

  /** `Expr::or`, the same for disjunction. */
  function MkOr<T>(args: seq<Expr<T>>): Expr<T>
  {
    if |args| == 1 then args[0] else Or(args)
  }

  /** `&`: And operands on either side are spliced into one conjunction. */
  function Conj<T>(lhs: Expr<T>, rhs: Expr<T>): Expr<T>
  {
    if lhs.And? && rhs.And? then MkAnd(lhs.args + rhs.args)
    else if lhs.And? then MkAnd(lhs.args + [rhs])
    else if rhs.And? then MkAnd([lhs] + rhs.args)
    else MkAnd([lhs, rhs])
  }

  /** `|`: Or operands on either side are spliced into one disjunction. */
  function Disj<T>(lhs: Expr<T>, rhs: Expr<T>): Expr<T>
  {
    if lhs.Or? && rhs.Or? then MkOr(lhs.args + rhs.args)
    else if lhs.Or? then MkOr(lhs.args + [rhs])
    else if rhs.Or? then MkOr([lhs] + rhs.args)
    else MkOr([lhs, rhs])
  }

  /** Every terminal of `e` has a value in `mapping`. */
  predicate Mapped<T(==)>(e: Expr<T>, mapping: map<T, bool>)
  {
    match e
    case Const(_) => true
    case Terminal(v) => v in mapping
    case Not(arg) => Mapped(arg, mapping)
    case And(args) => forall i :: 0 <= i < |args| ==> Mapped(args[i], mapping)
    case Or(args) => forall i :: 0 <= i < |args| ==> Mapped(args[i], mapping)
  }

  function Negate(r: Option<bool>): Option<bool>
  {
    match r
    case None => None
    case Some(b) => Some(!b)
  }

  /**
   * `eval`. `None` stands for the panic on a terminal missing from the
   * mapping; `all` and `any` stop at the first deciding argument, so a
   * missing terminal after it does no harm.
   */
  function Eval<T(==)>(e: Expr<T>, mapping: map<T, bool>): (r: Option<bool>)
    ensures Mapped(e, mapping) ==> r.Some?
    ensures e.Terminal? ==> (r.None? <==> e.v !in mapping)
    ensures e.Not? ==> r == Negate(Eval(e.arg, mapping))
    decreases e, 1
  {
    match e
    case Const(b) => Some(b)
    case Terminal(v) => if v in mapping then Some(mapping[v]) else None
    case Not(arg) => Negate(Eval(arg, mapping))
    case And(args) => EvalSeq(args, mapping, true)
    case Or(args) => EvalSeq(args, mapping, false)
  }

  /**
   * Short-circuit evaluation of the arguments of a conjunction (`unit` is
   * true, as in `all`) or of a disjunction (`unit` is false, as in `any`):
   * the first argument whose value is not `unit` decides.
   */
  function EvalSeq<T(==)>(args: seq<Expr<T>>, mapping: map<T, bool>, unit: bool): (r: Option<bool>)
    ensures (forall i :: 0 <= i < |args| ==> Mapped(args[i], mapping)) ==> r.Some?
    decreases args, 0
  {
    if |args| == 0 then Some(unit)
    else
      var rest := EvalSeq(args[1..], mapping, unit);
      assert forall i :: 0 < i < |args| ==> args[1..][i - 1] == args[i];
      match Eval(args[0], mapping)
      case None => None
      case Some(b) => if b == unit then rest else Some(b)
  }

  /** The first argument evaluated as `unit` is `args[k]`, every one before it being `unit`. */
  predicate UnitUpTo<T(==)>(args: seq<Expr<T>>, mapping: map<T, bool>, unit: bool, k: int)
    requires 0 <= k <= |args|
  {
    forall j :: 0 <= j < k ==> Eval(args[j], mapping) == Some(unit)
  }

  /** The position of the first argument whose value is not `unit`, or `|args|` when there is none. */
  function Decider<T(==)>(args: seq<Expr<T>>, mapping: map<T, bool>, unit: bool): (k: nat)
    ensures k <= |args| && UnitUpTo(args, mapping, unit, k)
    ensures k < |args| ==> Eval(args[k], mapping) != Some(unit)
    decreases |args|
  {
    if |args| == 0 then 0
    else if Eval(args[0], mapping) == Some(unit) then
      var k := 1 + Decider(args[1..], mapping, unit);
      assert forall j :: 0 < j < k ==> args[1..][j - 1] == args[j];
      k
    else 0
  }

  /**
   * `all` (for `unit` true) and `any` (for `unit` false): the value is
   * `unit` when every argument is, and otherwise the value of the first
   * argument that is not `unit`, a panic included.
   */
  lemma {:induction false} EvalSeqMeaning<T>(args: seq<Expr<T>>, mapping: map<T, bool>, unit: bool)
    ensures var k := Decider(args, mapping, unit);
      EvalSeq(args, mapping, unit) == if k == |args| then Some(unit) else Eval(args[k], mapping)
    decreases |args|
  {
    if |args| > 0 {
      EvalSeqMeaning(args[1..], mapping, unit);
    }
  }

  /** One argument decides a conjunction or disjunction as it decides itself. */
  lemma EvalSeqSingle<T>(x: Expr<T>, mapping: map<T, bool>, unit: bool)
    ensures EvalSeq([x], mapping, unit) == Eval(x, mapping)
  {
    assert [x][1..] == [];
  }

  /** Short-circuit evaluation of `a + b` reads `b` only when all of `a` has the value `unit`. */
  lemma {:induction false} EvalSeqAppend<T>(a: seq<Expr<T>>, b: seq<Expr<T>>, mapping: map<T, bool>, unit: bool)
    ensures EvalSeq(a + b, mapping, unit) ==
      if EvalSeq(a, mapping, unit) == Some(unit) then EvalSeq(b, mapping, unit) else EvalSeq(a, mapping, unit)
    decreases |a|
  {
    if |a| > 0 {
      assert (a + b)[0] == a[0];
      assert (a + b)[1..] == a[1..] + b;
      EvalSeqAppend(a[1..], b, mapping, unit);
    } else {
      assert a + b == b;
    }
  }

  /** `Expr::and` changes no value, panics included. */
  lemma MkAndEval<T>(args: seq<Expr<T>>, mapping: map<T, bool>)
    ensures Eval(MkAnd(args), mapping) == Eval(And(args), mapping)
  {
    if |args| == 1 {
      assert args == [args[0]];
      EvalSeqSingle(args[0], mapping, true);
    }
  }

  /** `Expr::or` changes no value, panics included. */
  lemma MkOrEval<T>(args: seq<Expr<T>>, mapping: map<T, bool>)
    ensures Eval(MkOr(args), mapping) == Eval(Or(args), mapping)
  {
    if |args| == 1 {
      assert args == [args[0]];
      EvalSeqSingle(args[0], mapping, false);
    }
  }

  /** The value of a conjunction `a & b` with its arguments spliced or not. */
  lemma JunctionPair<T>(l: seq<Expr<T>>, r: seq<Expr<T>>, lhs: Expr<T>, rhs: Expr<T>, mapping: map<T, bool>, unit: bool)
    requires l == [lhs] || ((if unit then lhs.And? else lhs.Or?) && l == lhs.args)
    requires r == [rhs] || ((if unit then rhs.And? else rhs.Or?) && r == rhs.args)
    ensures EvalSeq(l + r, mapping, unit) == EvalSeq([lhs, rhs], mapping, unit)
  {
    EvalSeqAppend(l, r, mapping, unit);
    EvalSeqAppend([lhs], [rhs], mapping, unit);
    assert [lhs] + [rhs] == [lhs, rhs];
    EvalSeqSingle(lhs, mapping, unit);
    EvalSeqSingle(rhs, mapping, unit);
  }

  /** `lhs & rhs` evaluates as the conjunction of `lhs` and `rhs`: flattening changes no value. */
  lemma ConjEval<T>(lhs: Expr<T>, rhs: Expr<T>, mapping: map<T, bool>)
    ensures Eval(Conj(lhs, rhs), mapping) == Eval(And([lhs, rhs]), mapping)
  {
    var l := if lhs.And? then lhs.args else [lhs];
    var r := if rhs.And? then rhs.args else [rhs];
    assert Conj(lhs, rhs) == MkAnd(l + r);
    MkAndEval(l + r, mapping);
    JunctionPair(l, r, lhs, rhs, mapping, true);
  }

  /** `lhs | rhs` evaluates as the disjunction of `lhs` and `rhs`. */
  lemma DisjEval<T>(lhs: Expr<T>, rhs: Expr<T>, mapping: map<T, bool>)
    ensures Eval(Disj(lhs, rhs), mapping) == Eval(Or([lhs, rhs]), mapping)
  {
    var l := if lhs.Or? then lhs.args else [lhs];
    var r := if rhs.Or? then rhs.args else [rhs];
    assert Disj(lhs, rhs) == MkOr(l + r);
    MkOrEval(l + r, mapping);
    JunctionPair(l, r, lhs, rhs, mapping, false);
  }

  /** `&` with a conjunction on either side keeps every argument, in order, at one level. */
  lemma ConjFlattens<T>(a: seq<Expr<T>>, b: seq<Expr<T>>, x: Expr<T>)
    requires |a| >= 1 && |b| >= 1 && !x.And?
    ensures Conj(And(a), And(b)) == And(a + b)
    ensures Conj(And(a), x) == And(a + [x])
    ensures Conj(x, And(b)) == And([x] + b)
    ensures Conj(x, x) == And([x, x])
  {
  }

  /** `|` with a disjunction on either side keeps every argument, in order, at one level. */
  lemma DisjFlattens<T>(a: seq<Expr<T>>, b: seq<Expr<T>>, x: Expr<T>)
    requires |a| >= 1 && |b| >= 1 && !x.Or?
    ensures Disj(Or(a), Or(b)) == Or(a + b)
    ensures Disj(Or(a), x) == Or(a + [x])
    ensures Disj(x, Or(b)) == Or([x] + b)
    ensures Disj(x, x) == Or([x, x])
  {
  }

  // ---------- conversion to negation normal form ----------

  /** No constant occurs in `e`: `to_nnf` panics on one, negated or not. */
  predicate NoConst<T>(e: Expr<T>)
  {
    match e
    case Const(_) => false
    case Terminal(_) => true
    case Not(arg) => NoConst(arg)
    case And(args) => forall i :: 0 <= i < |args| ==> NoConst(args[i])
    case Or(args) => forall i :: 0 <= i < |args| ==> NoConst(args[i])
  }

  /** Every terminal of `e` is one of the variables `1 .. n`. */
  predicate VarsIn(e: Expr<nat>, n: nat)
  {
    match e
    case Const(_) => true
    case Terminal(v) => 1 <= v <= n
    case Not(arg) => VarsIn(arg, n)
    case And(args) => forall i :: 0 <= i < |args| ==> VarsIn(args[i], n)
    case Or(args) => forall i :: 0 <= i < |args| ==> VarsIn(args[i], n)
  }

  /** Every conjunction and disjunction of `e` has an argument. */
  predicate NonEmpty<T>(e: Expr<T>)
  {
    match e
    case Const(_) => true
    case Terminal(_) => true
    case Not(arg) => NonEmpty(arg)
    case And(args) => |args| >= 1 && forall i :: 0 <= i < |args| ==> NonEmpty(args[i])
    case Or(args) => |args| >= 1 && forall i :: 0 <= i < |args| ==> NonEmpty(args[i])
  }

  /** `to_nnf` on expressions over variables: a variable `v` is the literal `v`. */
  function ToNnf(e: Expr<nat>): CoreNnf.Nnf
    requires NoConst(e)
    decreases e
  {
    match e
    case Terminal(v) => CoreNnf.Literal(v)
    case Not(arg) => NegationToNnf(arg)
    case And(args) => CoreNnf.Conjunction(seq(|args|, i requires 0 <= i < |args| => ToNnf(args[i])))
    case Or(args) => CoreNnf.Disjunction(seq(|args|, i requires 0 <= i < |args| => ToNnf(args[i])))
  }

  /**
   * `negation_to_nnf`: the normal form of the negation of `e`, with a double
   * negation dropped and De Morgan's laws pushing the negation inwards.
   */
  function NegationToNnf(e: Expr<nat>): CoreNnf.Nnf
    requires NoConst(e)
    decreases e
  {
    match e
    case Terminal(v) => CoreNnf.Literal(-(v as int))
    case Not(arg) => ToNnf(arg)
    case And(args) => CoreNnf.Disjunction(seq(|args|, i requires 0 <= i < |args| => NegationToNnf(args[i])))
    case Or(args) => CoreNnf.Conjunction(seq(|args|, i requires 0 <= i < |args| => NegationToNnf(args[i])))
  }

  /** With every argument mapped, `all` and `any` are the plain quantifiers. */
  lemma EvalSeqMapped<T>(args: seq<Expr<T>>, mapping: map<T, bool>, unit: bool)
    requires forall i :: 0 <= i < |args| ==> Mapped(args[i], mapping)
    ensures EvalSeq(args, mapping, unit) == Some(unit) <==> forall i :: 0 <= i < |args| ==> Eval(args[i], mapping) == Some(unit)
    ensures EvalSeq(args, mapping, unit) == Some(!unit) <==> exists i :: 0 <= i < |args| && Eval(args[i], mapping) == Some(!unit)
  {
    EvalSeqMeaning(args, mapping, unit);
    assert forall i :: 0 <= i < |args| ==> Eval(args[i], mapping).Some?;
  }

  /**
   * The normal form has the value of the expression, and the negated normal
   * form the opposite value, under a model that agrees with the mapping.
   */
  lemma {:induction false} ToNnfEval(e: Expr<nat>, n: nat, mapping: map<nat, bool>, m: Model)
    requires NoConst(e) && VarsIn(e, n) && Mapped(e, mapping)
    requires forall v :: v in mapping ==> m(v) == mapping[v]
    ensures CoreNnf.Eval(m, ToNnf(e)) <==> Eval(e, mapping) == Some(true)
    ensures CoreNnf.Eval(m, NegationToNnf(e)) <==> Eval(e, mapping) == Some(false)
    decreases e, 1
  {
    match e
    case Terminal(v) =>
    case Not(arg) =>
      ToNnfEval(arg, n, mapping, m);
    case And(args) =>
      ToNnfEvalArgs(args, n, mapping, m);
      ConjunctionNnfEval(args, mapping, m);
      ConjunctionNegationEval(args, mapping, m);
    case Or(args) =>
      ToNnfEvalArgs(args, n, mapping, m);
      DisjunctionNnfEval(args, mapping, m);
      DisjunctionNegationEval(args, mapping, m);
  }

  /** The cases of `ToNnfEval` for a conjunction and a disjunction, normal form and negated normal form. */
  lemma ConjunctionNnfEval(args: seq<Expr<nat>>, mapping: map<nat, bool>, m: Model)
    requires forall i :: 0 <= i < |args| ==> NoConst(args[i]) && Mapped(args[i], mapping)
    requires forall i :: 0 <= i < |args| ==> (CoreNnf.Eval(m, ToNnf(args[i])) <==> Eval(args[i], mapping) == Some(true))
    ensures CoreNnf.Eval(m, ToNnf(And(args))) <==> Eval(And(args), mapping) == Some(true)
  {
    EvalSeqMapped(args, mapping, true);
    var nnf := ToNnf(And(args)).args;
    assert forall i :: 0 <= i < |args| ==> nnf[i] == ToNnf(args[i]);
    assert CoreNnf.Eval(m, ToNnf(And(args))) <==> forall i :: 0 <= i < |args| ==> CoreNnf.Eval(m, ToNnf(args[i]));
  }

  lemma ConjunctionNegationEval(args: seq<Expr<nat>>, mapping: map<nat, bool>, m: Model)
    requires forall i :: 0 <= i < |args| ==> NoConst(args[i]) && Mapped(args[i], mapping)
    requires forall i :: 0 <= i < |args| ==> (CoreNnf.Eval(m, NegationToNnf(args[i])) <==> Eval(args[i], mapping) == Some(false))
    ensures CoreNnf.Eval(m, NegationToNnf(And(args))) <==> Eval(And(args), mapping) == Some(false)
  {
    EvalSeqMapped(args, mapping, true);
    var nnf := NegationToNnf(And(args)).args;
    assert forall i :: 0 <= i < |args| ==> nnf[i] == NegationToNnf(args[i]);
    assert CoreNnf.Eval(m, NegationToNnf(And(args))) <==> exists i :: 0 <= i < |args| && CoreNnf.Eval(m, NegationToNnf(args[i]));
  }

  lemma DisjunctionNnfEval(args: seq<Expr<nat>>, mapping: map<nat, bool>, m: Model)
    requires forall i :: 0 <= i < |args| ==> NoConst(args[i]) && Mapped(args[i], mapping)
    requires forall i :: 0 <= i < |args| ==> (CoreNnf.Eval(m, ToNnf(args[i])) <==> Eval(args[i], mapping) == Some(true))
    ensures CoreNnf.Eval(m, ToNnf(Or(args))) <==> Eval(Or(args), mapping) == Some(true)
  {
    EvalSeqMapped(args, mapping, false);
    var nnf := ToNnf(Or(args)).args;
    assert forall i :: 0 <= i < |args| ==> nnf[i] == ToNnf(args[i]);
    assert CoreNnf.Eval(m, ToNnf(Or(args))) <==> exists i :: 0 <= i < |args| && CoreNnf.Eval(m, ToNnf(args[i]));
  }

  lemma DisjunctionNegationEval(args: seq<Expr<nat>>, mapping: map<nat, bool>, m: Model)
    requires forall i :: 0 <= i < |args| ==> NoConst(args[i]) && Mapped(args[i], mapping)
    requires forall i :: 0 <= i < |args| ==> (CoreNnf.Eval(m, NegationToNnf(args[i])) <==> Eval(args[i], mapping) == Some(false))
    ensures CoreNnf.Eval(m, NegationToNnf(Or(args))) <==> Eval(Or(args), mapping) == Some(false)
  {
    EvalSeqMapped(args, mapping, false);
    var nnf := NegationToNnf(Or(args)).args;
    assert forall i :: 0 <= i < |args| ==> nnf[i] == NegationToNnf(args[i]);
    assert CoreNnf.Eval(m, NegationToNnf(Or(args))) <==> forall i :: 0 <= i < |args| ==> CoreNnf.Eval(m, NegationToNnf(args[i]));
  }

  lemma {:induction false} ToNnfEvalArgs(args: seq<Expr<nat>>, n: nat, mapping: map<nat, bool>, m: Model)
    requires forall i :: 0 <= i < |args| ==> NoConst(args[i]) && VarsIn(args[i], n) && Mapped(args[i], mapping)
    requires forall v :: v in mapping ==> m(v) == mapping[v]
    ensures forall i :: 0 <= i < |args| ==>
      (CoreNnf.Eval(m, ToNnf(args[i])) <==> Eval(args[i], mapping) == Some(true)) &&
      (CoreNnf.Eval(m, NegationToNnf(args[i])) <==> Eval(args[i], mapping) == Some(false))
    decreases args, 0
  {
    forall i | 0 <= i < |args|
      ensures CoreNnf.Eval(m, ToNnf(args[i])) <==> Eval(args[i], mapping) == Some(true)
      ensures CoreNnf.Eval(m, NegationToNnf(args[i])) <==> Eval(args[i], mapping) == Some(false)
    {
      ToNnfEval(args[i], n, mapping, m);
    }
  }

  /** The normal forms keep every argument list, so none of them is empty when none of `e`'s is. */
  lemma {:induction false} ToNnfShape(e: Expr<nat>, n: nat)
    requires NoConst(e) && NonEmpty(e) && VarsIn(e, n)
    ensures CoreNnf.Reifiable(ToNnf(e)) && CoreNnf.Reifiable(NegationToNnf(e))
    ensures CoreNnf.Within(ToNnf(e), n) && CoreNnf.Within(NegationToNnf(e), n)
    decreases e
  {
    match e
    case Terminal(v) =>
    case Not(arg) =>
      ToNnfShape(arg, n);
    case And(args) =>
      forall i | 0 <= i < |args| {
        ToNnfShape(args[i], n);
      }
      assert forall i :: 0 <= i < |args| ==> ToNnf(e).args[i] == ToNnf(args[i]);
      assert forall i :: 0 <= i < |args| ==> NegationToNnf(e).args[i] == NegationToNnf(args[i]);
    case Or(args) =>
      forall i | 0 <= i < |args| {
        ToNnfShape(args[i], n);
      }
      assert forall i :: 0 <= i < |args| ==> ToNnf(e).args[i] == ToNnf(args[i]);
      assert forall i :: 0 <= i < |args| ==> NegationToNnf(e).args[i] == NegationToNnf(args[i]);
  }

  /** The mapping a model gives the variables `1 .. n`. */
  function Restrict(m: Model, n: nat): (mapping: map<nat, bool>)
    ensures forall v :: v in mapping <==> 1 <= v <= n
    ensures forall v :: v in mapping ==> mapping[v] == m(v)
  {
    map v: nat | 1 <= v <= n :: m(v)
  }

  lemma {:induction false} VarsInMapped(e: Expr<nat>, n: nat, m: Model)
    requires VarsIn(e, n)
    ensures Mapped(e, Restrict(m, n))
    decreases e
  {
    match e
    case Const(_) =>
    case Terminal(_) =>
    case Not(arg) =>
      VarsInMapped(arg, n, m);
    case And(args) =>
      forall i | 0 <= i < |args| ensures Mapped(args[i], Restrict(m, n)) {
        VarsInMapped(args[i], n, m);
      }
    case Or(args) =>
      forall i | 0 <= i < |args| ensures Mapped(args[i], Restrict(m, n)) {
        VarsInMapped(args[i], n, m);
      }
  }

  /**
   * From expression to clauses: for an expression over the variables
   * `1 .. n` without constants and empty argument lists, `to_nnf` followed by
   * `to_cnf` yields clauses every model of which makes the expression true,
   * and every assignment making the expression true extends to a model of them.
   */
  lemma ExprToCnfCorrect(e: Expr<nat>, n: nat)
    requires NoConst(e) && NonEmpty(e) && VarsIn(e, n)
    ensures CoreNnf.Convertible(ToNnf(e))
    ensures forall m: Model :: CnfSat(m, CoreNnf.Translation(false, ToNnf(e), n).clauses) ==>
      Eval(e, Restrict(m, n)) == Some(true)
    ensures forall m: Model :: Eval(e, Restrict(m, n)) == Some(true) ==>
      exists w: Model :: CoreNnf.Agree(w, m, n) && CnfSat(w, CoreNnf.Translation(false, ToNnf(e), n).clauses)
  {
    ToNnfShape(e, n);
    CoreNnf.ReifiableConvertible(ToNnf(e));
    CoreNnf.TranslationCorrect(ToNnf(e), n);
    forall m: Model
      ensures CoreNnf.Eval(m, ToNnf(e)) <==> Eval(e, Restrict(m, n)) == Some(true)
    {
      VarsInMapped(e, n, m);
      ToNnfEval(e, n, Restrict(m, n), m);
    }
  }

  /** The expression `!!x8 & !(x1 | x2)` of the conversion test. */
  const Sample := And([Not(Not(Terminal(8))), Not(Or([Terminal(1), Terminal(2)]))])

  /** Its normal form is `x8 & (-x1 & -x2)`. */
  lemma SampleToNnf()
    ensures NoConst(Sample) &&
      ToNnf(Sample) == CoreNnf.Conjunction([CoreNnf.Literal(8),
        CoreNnf.Conjunction([CoreNnf.Literal(-1), CoreNnf.Literal(-2)])])
  {
    var inner := Or([Terminal(1), Terminal(2)]);
    assert NoConst(inner);
    assert NegationToNnf(inner) == CoreNnf.Conjunction([CoreNnf.Literal(-1), CoreNnf.Literal(-2)]);
    assert ToNnf(Not(Not(Terminal(8)))) == CoreNnf.Literal(8);
  }
}
