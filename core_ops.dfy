/**
 * Clause-emitting logical operations (lib/core/src/op/ops.rs). Each operation
 * appends a fixed list of clauses to a clause sink, here the `Cnf` formula
 * (which implements the sink interface). The clause lists are given as
 * functions, and a lemma per operation states the logical constraint that a
 * model satisfies exactly when it satisfies those clauses.
 */
module Ops {
  import opened Semantics
  import opened Cnf

  predicate AllTrue(m: Model, xs: seq<int>)
  {
    forall i :: 0 <= i < |xs| ==> LitTrue(m, xs[i])
  }

  function Negs(xs: seq<int>): (r: seq<int>)
    ensures |r| == |xs|
    ensures forall i :: 0 <= i < |xs| ==> r[i] == -xs[i]
  {
    seq(|xs|, i requires 0 <= i < |xs| => -xs[i])
  }

  /** One clause `prefix ++ [x]` per `x`, in order. */
  function ImplyEach(prefix: seq<int>, xs: seq<int>): (r: seq<seq<int>>)
    ensures |r| == |xs|
    ensures forall i :: 0 <= i < |xs| ==> r[i] == prefix + [xs[i]]
  {
    seq(|xs|, i requires 0 <= i < |xs| => prefix + [xs[i]])
  }

  /** One clause `[-x, l]` per `x`, in order. */
  function ImpliedBy(xs: seq<int>, l: int): (r: seq<seq<int>>)
    ensures |r| == |xs|
    ensures forall i :: 0 <= i < |xs| ==> r[i] == [-xs[i], l]
  {
    seq(|xs|, i requires 0 <= i < |xs| => [-xs[i], l])
  }

  /** One clause `prefix ++ [-x, l]` per `x`, in order. */
  function ImplyEachInto(prefix: seq<int>, xs: seq<int>, l: int): (r: seq<seq<int>>)
    ensures |r| == |xs|
    ensures forall i :: 0 <= i < |xs| ==> r[i] == prefix + [-xs[i], l]
  {
    seq(|xs|, i requires 0 <= i < |xs| => prefix + [-xs[i], l])
  }

  lemma ClauseSatNegs(m: Model, xs: seq<int>)
    requires NonZero(xs)
    ensures ClauseSat(m, Negs(xs)) <==> !AllTrue(m, xs)
  {
    if !AllTrue(m, xs) {
      var i :| 0 <= i < |xs| && !LitTrue(m, xs[i]);
      NegLit(m, xs[i]);
    }
    if ClauseSat(m, Negs(xs)) {
      var i :| 0 <= i < |xs| && LitTrue(m, Negs(xs)[i]);
      NegLit(m, xs[i]);
    }
  }

  lemma CnfSatImplyEach(m: Model, prefix: seq<int>, xs: seq<int>)
    ensures CnfSat(m, ImplyEach(prefix, xs)) <==> ClauseSat(m, prefix) || AllTrue(m, xs)
  {
    forall i | 0 <= i < |xs|
      ensures ClauseSat(m, ImplyEach(prefix, xs)[i]) <==> ClauseSat(m, prefix) || LitTrue(m, xs[i])
    {
      ClauseSatAppend(m, prefix, [xs[i]]);
      ClauseSatSingle(m, xs[i]);
    }
  }

  lemma CnfSatImpliedBy(m: Model, xs: seq<int>, l: int)
    requires NonZero(xs)
    ensures CnfSat(m, ImpliedBy(xs, l)) <==> (ClauseSat(m, xs) ==> LitTrue(m, l))
  {
    forall i | 0 <= i < |xs|
      ensures ClauseSat(m, ImpliedBy(xs, l)[i]) <==> (LitTrue(m, xs[i]) ==> LitTrue(m, l))
    {
      ClauseSat2(m, -xs[i], l);
      NegLit(m, xs[i]);
    }
  }

  lemma CnfSatImplyEachInto(m: Model, prefix: seq<int>, xs: seq<int>, l: int)
    requires NonZero(xs)
    ensures CnfSat(m, ImplyEachInto(prefix, xs, l)) <==> ClauseSat(m, prefix) || (ClauseSat(m, xs) ==> LitTrue(m, l))
  {
    forall i | 0 <= i < |xs|
      ensures ClauseSat(m, ImplyEachInto(prefix, xs, l)[i]) <==>
        ClauseSat(m, prefix) || (LitTrue(m, xs[i]) ==> LitTrue(m, l))
    {
      ClauseSatAppend(m, prefix, [-xs[i], l]);
      ClauseSat2(m, -xs[i], l);
      NegLit(m, xs[i]);
    }
  }

  /** A clause of negated guards followed by the rest: false guards or a true rest. */
  lemma GuardedClause(m: Model, guards: seq<int>, rest: seq<int>)
    requires NonZero(guards)
    ensures ClauseSat(m, Negs(guards) + rest) <==> (AllTrue(m, guards) ==> ClauseSat(m, rest))
  {
    ClauseSatAppend(m, Negs(guards), rest);
    ClauseSatNegs(m, guards);
  }

  // ---------- the clause lists ----------

  function ImplyCnf(lhs: int, rhs: int): seq<seq<int>> { [[-lhs, rhs]] }

  function IffCnf(lhs: int, rhs: int): seq<seq<int>> { ImplyCnf(lhs, rhs) + ImplyCnf(rhs, lhs) }

  function IteCnf(cond: int, a: int, b: int): seq<seq<int>> { ImplyCnf(cond, a) + ImplyCnf(-cond, b) }

  function ImplyAndCnf(lhs: int, rhs: seq<int>): seq<seq<int>> { ImplyEach([-lhs], rhs) }

  function ImplyOrCnf(lhs: int, rhs: seq<int>): seq<seq<int>> { [[-lhs] + rhs] }

  function ImplyImplyCnf(x1: int, x2: int, x3: int): seq<seq<int>> { [[-x1, -x2, x3]] }

  function ImplyIffCnf(x1: int, x2: int, x3: int): seq<seq<int>>
  {
    ImplyImplyCnf(x1, x2, x3) + ImplyImplyCnf(x1, x3, x2)
  }

  function ImplyIteCnf(lhs: int, cond: int, a: int, b: int): seq<seq<int>>
  {
    ImplyImplyCnf(lhs, cond, a) + ImplyImplyCnf(lhs, -cond, b)
  }

  function ImplyImplyAndCnf(x1: int, x2: int, xs: seq<int>): seq<seq<int>> { ImplyEach([-x1, -x2], xs) }

  function ImplyImplyOrCnf(x1: int, x2: int, xs: seq<int>): seq<seq<int>> { [[-x1, -x2] + xs] }

  function ImplyImplyImplyCnf(x1: int, x2: int, x3: int, x4: int): seq<seq<int>> { [[-x1, -x2, -x3, x4]] }

  function ImplyImplyIffCnf(x1: int, x2: int, x3: int, x4: int): seq<seq<int>>
  {
    ImplyImplyImplyCnf(x1, x2, x3, x4) + ImplyImplyImplyCnf(x1, x2, x4, x3)
  }

  function ImplyImplyIteCnf(x1: int, x2: int, cond: int, a: int, b: int): seq<seq<int>>
  {
    ImplyImplyImplyCnf(x1, x2, cond, a) + ImplyImplyImplyCnf(x1, x2, -cond, b)
  }

  function ImplyImplyImplyAndCnf(x1: int, x2: int, x3: int, xs: seq<int>): seq<seq<int>>
  {
    ImplyEach([-x1, -x2, -x3], xs)
  }

  function ImplyImplyImplyOrCnf(x1: int, x2: int, x3: int, xs: seq<int>): seq<seq<int>>
  {
    [[-x1, -x2, -x3] + xs]
  }

  function ImplyImplyImplyImplyCnf(x1: int, x2: int, x3: int, x4: int, x5: int): seq<seq<int>>
  {
    [[-x1, -x2, -x3, -x4, x5]]
  }

  function ImplyImplyImplyIffCnf(x1: int, x2: int, x3: int, x4: int, x5: int): seq<seq<int>>
  {
    ImplyImplyImplyImplyCnf(x1, x2, x3, x4, x5) + ImplyImplyImplyImplyCnf(x1, x2, x3, x5, x4)
  }

  function ImplyImplyImplyIteCnf(x1: int, x2: int, x3: int, cond: int, a: int, b: int): seq<seq<int>>
  {
    ImplyImplyImplyImplyCnf(x1, x2, x3, cond, a) + ImplyImplyImplyImplyCnf(x1, x2, x3, -cond, b)
  }

  function IffAndCnf(lhs: int, xs: seq<int>): seq<seq<int>> { ImplyEach([-lhs], xs) + [[lhs] + Negs(xs)] }

  function IffOrCnf(lhs: int, xs: seq<int>): seq<seq<int>> { ImpliedBy(xs, lhs) + [[-lhs] + xs] }

  function IffImplyCnf(lhs: int, x1: int, x2: int): seq<seq<int>>
  {
    ImplyImplyCnf(lhs, x1, x2) + [[lhs, x1], [lhs, -x2]]
  }

  function IffIffCnf(lhs: int, x1: int, x2: int): seq<seq<int>>
  {
    ImplyIffCnf(lhs, x1, x2) + [[lhs, -x1, -x2], [lhs, x1, x2]]
  }

  function IffIteCnf(lhs: int, cond: int, a: int, b: int): seq<seq<int>>
  {
    ImplyIteCnf(lhs, cond, a, b) + ImplyImplyCnf(cond, a, lhs) + ImplyImplyCnf(-cond, b, lhs)
  }

  function ImplyIffAndCnf(x1: int, x2: int, xs: seq<int>): seq<seq<int>>
  {
    ImplyEach([-x1, -x2], xs) + [[-x1, x2] + Negs(xs)]
  }

  function ImplyIffOrCnf(x1: int, x2: int, xs: seq<int>): seq<seq<int>>
  {
    ImplyEachInto([-x1], xs, x2) + [[-x1, -x2] + xs]
  }

  // ---------- what the clause lists mean ----------

  lemma ImplyMeaning(m: Model, lhs: int, rhs: int)
    requires lhs != 0
    ensures CnfSat(m, ImplyCnf(lhs, rhs)) <==> (LitTrue(m, lhs) ==> LitTrue(m, rhs))
  {
    CnfSatSingle(m, [-lhs, rhs]);
    ClauseSat2(m, -lhs, rhs);
    NegLit(m, lhs);
  }

  lemma IffMeaning(m: Model, lhs: int, rhs: int)
    requires lhs != 0 && rhs != 0
    ensures CnfSat(m, IffCnf(lhs, rhs)) <==> (LitTrue(m, lhs) == LitTrue(m, rhs))
  {
    CnfSatAppend(m, ImplyCnf(lhs, rhs), ImplyCnf(rhs, lhs));
    ImplyMeaning(m, lhs, rhs);
    ImplyMeaning(m, rhs, lhs);
  }

  lemma IteMeaning(m: Model, cond: int, a: int, b: int)
    requires cond != 0
    ensures CnfSat(m, IteCnf(cond, a, b)) <==> (if LitTrue(m, cond) then LitTrue(m, a) else LitTrue(m, b))
  {
    CnfSatAppend(m, ImplyCnf(cond, a), ImplyCnf(-cond, b));
    ImplyMeaning(m, cond, a);
    ImplyMeaning(m, -cond, b);
    NegLit(m, cond);
  }

  lemma ImplyAndMeaning(m: Model, lhs: int, rhs: seq<int>)
    requires lhs != 0
    ensures CnfSat(m, ImplyAndCnf(lhs, rhs)) <==> (LitTrue(m, lhs) ==> AllTrue(m, rhs))
  {
    CnfSatImplyEach(m, [-lhs], rhs);
    ClauseSatSingle(m, -lhs);
    NegLit(m, lhs);
  }

  lemma ImplyOrMeaning(m: Model, lhs: int, rhs: seq<int>)
    requires lhs != 0
    ensures CnfSat(m, ImplyOrCnf(lhs, rhs)) <==> (LitTrue(m, lhs) ==> ClauseSat(m, rhs))
  {
    CnfSatSingle(m, [-lhs] + rhs);
    ClauseSatCons(m, -lhs, rhs);
    NegLit(m, lhs);
  }

  lemma ImplyImplyMeaning(m: Model, x1: int, x2: int, x3: int)
    requires x1 != 0 && x2 != 0
    ensures CnfSat(m, ImplyImplyCnf(x1, x2, x3)) <==> (LitTrue(m, x1) ==> LitTrue(m, x2) ==> LitTrue(m, x3))
  {
    CnfSatSingle(m, [-x1, -x2, x3]);
    ClauseSat3(m, -x1, -x2, x3);
    NegLit(m, x1);
    NegLit(m, x2);
  }

  lemma ImplyIffMeaning(m: Model, x1: int, x2: int, x3: int)
    requires x1 != 0 && x2 != 0 && x3 != 0
    ensures CnfSat(m, ImplyIffCnf(x1, x2, x3)) <==> (LitTrue(m, x1) ==> (LitTrue(m, x2) == LitTrue(m, x3)))
  {
    CnfSatAppend(m, ImplyImplyCnf(x1, x2, x3), ImplyImplyCnf(x1, x3, x2));
    ImplyImplyMeaning(m, x1, x2, x3);
    ImplyImplyMeaning(m, x1, x3, x2);
  }

  lemma ImplyIteMeaning(m: Model, lhs: int, cond: int, a: int, b: int)
    requires lhs != 0 && cond != 0
    ensures CnfSat(m, ImplyIteCnf(lhs, cond, a, b)) <==>
      (LitTrue(m, lhs) ==> if LitTrue(m, cond) then LitTrue(m, a) else LitTrue(m, b))
  {
    CnfSatAppend(m, ImplyImplyCnf(lhs, cond, a), ImplyImplyCnf(lhs, -cond, b));
    ImplyImplyMeaning(m, lhs, cond, a);
    ImplyImplyMeaning(m, lhs, -cond, b);
    NegLit(m, cond);
  }

  lemma ImplyImplyAndMeaning(m: Model, x1: int, x2: int, xs: seq<int>)
    requires x1 != 0 && x2 != 0
    ensures CnfSat(m, ImplyImplyAndCnf(x1, x2, xs)) <==> (LitTrue(m, x1) ==> LitTrue(m, x2) ==> AllTrue(m, xs))
  {
    CnfSatImplyEach(m, [-x1, -x2], xs);
    ClauseSat2(m, -x1, -x2);
    NegLit(m, x1);
    NegLit(m, x2);
  }

  lemma ImplyImplyOrMeaning(m: Model, x1: int, x2: int, xs: seq<int>)
    requires x1 != 0 && x2 != 0
    ensures CnfSat(m, ImplyImplyOrCnf(x1, x2, xs)) <==> (LitTrue(m, x1) ==> LitTrue(m, x2) ==> ClauseSat(m, xs))
  {
    CnfSatSingle(m, [-x1, -x2] + xs);
    ClauseSatAppend(m, [-x1, -x2], xs);
    ClauseSat2(m, -x1, -x2);
    NegLit(m, x1);
    NegLit(m, x2);
  }

  lemma ImplyImplyImplyMeaning(m: Model, x1: int, x2: int, x3: int, x4: int)
    requires x1 != 0 && x2 != 0 && x3 != 0
    ensures CnfSat(m, ImplyImplyImplyCnf(x1, x2, x3, x4)) <==>
      (LitTrue(m, x1) ==> LitTrue(m, x2) ==> LitTrue(m, x3) ==> LitTrue(m, x4))
  {
    CnfSatSingle(m, [-x1, -x2, -x3, x4]);
    ClauseSat4(m, -x1, -x2, -x3, x4);
    NegLit(m, x1);
    NegLit(m, x2);
    NegLit(m, x3);
  }

  lemma ImplyImplyIffMeaning(m: Model, x1: int, x2: int, x3: int, x4: int)
    requires x1 != 0 && x2 != 0 && x3 != 0 && x4 != 0
    ensures CnfSat(m, ImplyImplyIffCnf(x1, x2, x3, x4)) <==>
      (LitTrue(m, x1) ==> LitTrue(m, x2) ==> (LitTrue(m, x3) == LitTrue(m, x4)))
  {
    CnfSatAppend(m, ImplyImplyImplyCnf(x1, x2, x3, x4), ImplyImplyImplyCnf(x1, x2, x4, x3));
    ImplyImplyImplyMeaning(m, x1, x2, x3, x4);
    ImplyImplyImplyMeaning(m, x1, x2, x4, x3);
  }

  lemma ImplyImplyIteMeaning(m: Model, x1: int, x2: int, cond: int, a: int, b: int)
    requires x1 != 0 && x2 != 0 && cond != 0
    ensures CnfSat(m, ImplyImplyIteCnf(x1, x2, cond, a, b)) <==>
      (LitTrue(m, x1) ==> LitTrue(m, x2) ==> if LitTrue(m, cond) then LitTrue(m, a) else LitTrue(m, b))
  {
    CnfSatAppend(m, ImplyImplyImplyCnf(x1, x2, cond, a), ImplyImplyImplyCnf(x1, x2, -cond, b));
    ImplyImplyImplyMeaning(m, x1, x2, cond, a);
    ImplyImplyImplyMeaning(m, x1, x2, -cond, b);
    NegLit(m, cond);
  }

  lemma ImplyImplyImplyAndMeaning(m: Model, x1: int, x2: int, x3: int, xs: seq<int>)
    requires x1 != 0 && x2 != 0 && x3 != 0
    ensures CnfSat(m, ImplyImplyImplyAndCnf(x1, x2, x3, xs)) <==>
      (LitTrue(m, x1) ==> LitTrue(m, x2) ==> LitTrue(m, x3) ==> AllTrue(m, xs))
  {
    CnfSatImplyEach(m, [-x1, -x2, -x3], xs);
    ClauseSat3(m, -x1, -x2, -x3);
    NegLit(m, x1);
    NegLit(m, x2);
    NegLit(m, x3);
  }

  lemma ImplyImplyImplyOrMeaning(m: Model, x1: int, x2: int, x3: int, xs: seq<int>)
    requires x1 != 0 && x2 != 0 && x3 != 0
    ensures CnfSat(m, ImplyImplyImplyOrCnf(x1, x2, x3, xs)) <==>
      (LitTrue(m, x1) ==> LitTrue(m, x2) ==> LitTrue(m, x3) ==> ClauseSat(m, xs))
  {
    CnfSatSingle(m, [-x1, -x2, -x3] + xs);
    ClauseSatAppend(m, [-x1, -x2, -x3], xs);
    ClauseSat3(m, -x1, -x2, -x3);
    NegLit(m, x1);
    NegLit(m, x2);
    NegLit(m, x3);
  }

  lemma ImplyImplyImplyImplyMeaning(m: Model, x1: int, x2: int, x3: int, x4: int, x5: int)
    requires x1 != 0 && x2 != 0 && x3 != 0 && x4 != 0
    ensures CnfSat(m, ImplyImplyImplyImplyCnf(x1, x2, x3, x4, x5)) <==>
      (LitTrue(m, x1) ==> LitTrue(m, x2) ==> LitTrue(m, x3) ==> LitTrue(m, x4) ==> LitTrue(m, x5))
  {
    CnfSatSingle(m, [-x1, -x2, -x3, -x4, x5]);
    ClauseSat5(m, -x1, -x2, -x3, -x4, x5);
    NegLit(m, x1);
    NegLit(m, x2);
    NegLit(m, x3);
    NegLit(m, x4);
  }

  lemma ImplyImplyImplyIffMeaning(m: Model, x1: int, x2: int, x3: int, x4: int, x5: int)
    requires x1 != 0 && x2 != 0 && x3 != 0 && x4 != 0 && x5 != 0
    ensures CnfSat(m, ImplyImplyImplyIffCnf(x1, x2, x3, x4, x5)) <==>
      (LitTrue(m, x1) ==> LitTrue(m, x2) ==> LitTrue(m, x3) ==> (LitTrue(m, x4) == LitTrue(m, x5)))
  {
    CnfSatAppend(m, ImplyImplyImplyImplyCnf(x1, x2, x3, x4, x5), ImplyImplyImplyImplyCnf(x1, x2, x3, x5, x4));
    ImplyImplyImplyImplyMeaning(m, x1, x2, x3, x4, x5);
    ImplyImplyImplyImplyMeaning(m, x1, x2, x3, x5, x4);
  }

  lemma ImplyImplyImplyIteMeaning(m: Model, x1: int, x2: int, x3: int, cond: int, a: int, b: int)
    requires x1 != 0 && x2 != 0 && x3 != 0 && cond != 0
    ensures CnfSat(m, ImplyImplyImplyIteCnf(x1, x2, x3, cond, a, b)) <==>
      (LitTrue(m, x1) ==> LitTrue(m, x2) ==> LitTrue(m, x3) ==>
        if LitTrue(m, cond) then LitTrue(m, a) else LitTrue(m, b))
  {
    CnfSatAppend(m, ImplyImplyImplyImplyCnf(x1, x2, x3, cond, a), ImplyImplyImplyImplyCnf(x1, x2, x3, -cond, b));
    ImplyImplyImplyImplyMeaning(m, x1, x2, x3, cond, a);
    ImplyImplyImplyImplyMeaning(m, x1, x2, x3, -cond, b);
    NegLit(m, cond);
  }

  lemma IffAndMeaning(m: Model, lhs: int, xs: seq<int>)
    requires lhs != 0 && NonZero(xs)
    ensures CnfSat(m, IffAndCnf(lhs, xs)) <==> (LitTrue(m, lhs) == AllTrue(m, xs))
  {
    CnfSatAppend(m, ImplyEach([-lhs], xs), [[lhs] + Negs(xs)]);
    ImplyAndMeaning(m, lhs, xs);
    CnfSatSingle(m, [lhs] + Negs(xs));
    ClauseSatCons(m, lhs, Negs(xs));
    ClauseSatNegs(m, xs);
  }

  lemma IffOrMeaning(m: Model, lhs: int, xs: seq<int>)
    requires lhs != 0 && NonZero(xs)
    ensures CnfSat(m, IffOrCnf(lhs, xs)) <==> (LitTrue(m, lhs) == ClauseSat(m, xs))
  {
    CnfSatAppend(m, ImpliedBy(xs, lhs), [[-lhs] + xs]);
    CnfSatImpliedBy(m, xs, lhs);
    ImplyOrMeaning(m, lhs, xs);
  }

  lemma IffImplyMeaning(m: Model, lhs: int, x1: int, x2: int)
    requires lhs != 0 && x1 != 0 && x2 != 0
    ensures CnfSat(m, IffImplyCnf(lhs, x1, x2)) <==> (LitTrue(m, lhs) == (LitTrue(m, x1) ==> LitTrue(m, x2)))
  {
    CnfSatAppend(m, ImplyImplyCnf(lhs, x1, x2), [[lhs, x1], [lhs, -x2]]);
    ImplyImplyMeaning(m, lhs, x1, x2);
    CnfSat2(m, [lhs, x1], [lhs, -x2]);
    ClauseSat2(m, lhs, x1);
    ClauseSat2(m, lhs, -x2);
    NegLit(m, x2);
  }

  lemma IffIffMeaning(m: Model, lhs: int, x1: int, x2: int)
    requires lhs != 0 && x1 != 0 && x2 != 0
    ensures CnfSat(m, IffIffCnf(lhs, x1, x2)) <==> (LitTrue(m, lhs) == (LitTrue(m, x1) == LitTrue(m, x2)))
  {
    CnfSatAppend(m, ImplyIffCnf(lhs, x1, x2), [[lhs, -x1, -x2], [lhs, x1, x2]]);
    ImplyIffMeaning(m, lhs, x1, x2);
    CnfSat2(m, [lhs, -x1, -x2], [lhs, x1, x2]);
    ClauseSat3(m, lhs, -x1, -x2);
    ClauseSat3(m, lhs, x1, x2);
    NegLit(m, x1);
    NegLit(m, x2);
  }

  lemma IffIteMeaning(m: Model, lhs: int, cond: int, a: int, b: int)
    requires lhs != 0 && cond != 0 && a != 0 && b != 0
    ensures CnfSat(m, IffIteCnf(lhs, cond, a, b)) <==>
      (LitTrue(m, lhs) == if LitTrue(m, cond) then LitTrue(m, a) else LitTrue(m, b))
  {
    CnfSatAppend(m, ImplyIteCnf(lhs, cond, a, b) + ImplyImplyCnf(cond, a, lhs), ImplyImplyCnf(-cond, b, lhs));
    CnfSatAppend(m, ImplyIteCnf(lhs, cond, a, b), ImplyImplyCnf(cond, a, lhs));
    ImplyIteMeaning(m, lhs, cond, a, b);
    ImplyImplyMeaning(m, cond, a, lhs);
    ImplyImplyMeaning(m, -cond, b, lhs);
    NegLit(m, cond);
  }

  lemma ImplyIffAndMeaning(m: Model, x1: int, x2: int, xs: seq<int>)
    requires x1 != 0 && x2 != 0 && NonZero(xs)
    ensures CnfSat(m, ImplyIffAndCnf(x1, x2, xs)) <==> (LitTrue(m, x1) ==> (LitTrue(m, x2) == AllTrue(m, xs)))
  {
    CnfSatAppend(m, ImplyEach([-x1, -x2], xs), [[-x1, x2] + Negs(xs)]);
    ImplyImplyAndMeaning(m, x1, x2, xs);
    CnfSatSingle(m, [-x1, x2] + Negs(xs));
    ClauseSatAppend(m, [-x1, x2], Negs(xs));
    ClauseSat2(m, -x1, x2);
    ClauseSatNegs(m, xs);
    NegLit(m, x1);
  }

  lemma ImplyIffOrMeaning(m: Model, x1: int, x2: int, xs: seq<int>)
    requires x1 != 0 && x2 != 0 && NonZero(xs)
    ensures CnfSat(m, ImplyIffOrCnf(x1, x2, xs)) <==> (LitTrue(m, x1) ==> (LitTrue(m, x2) == ClauseSat(m, xs)))
  {
    CnfSatAppend(m, ImplyEachInto([-x1], xs, x2), [[-x1, -x2] + xs]);
    CnfSatImplyEachInto(m, [-x1], xs, x2);
    ClauseSatSingle(m, -x1);
    ImplyImplyOrMeaning(m, x1, x2, xs);
    NegLit(m, x1);
  }

  /** The example of lib/core/src/cnf/mod.rs: `imply_and(1, [2, 3])` gives `[[-1, 2], [-1, 3]]`. */
  lemma ImplyAndExample()
    ensures ImplyAndCnf(1, [2, 3]) == [[-1, 2], [-1, 3]]
  {
    var r := ImplyAndCnf(1, [2, 3]);
    assert r[0] == [-1] + [2] && r[1] == [-1] + [3];
    assert [-1] + [2] == [-1, 2] && [-1] + [3] == [-1, 3];
    assert |r| == 2;
  }

  // ---------- the operations on a clause sink ----------

  /** The clause being collected grows by one literal per element. */
  lemma CollectStep(prefix: seq<int>, xs: seq<int>, i: nat)
    requires i < |xs|
    ensures prefix + xs[..i] + [xs[i]] == prefix + xs[..i + 1]
    ensures prefix + Negs(xs[..i]) + [-xs[i]] == prefix + Negs(xs[..i + 1])
  {
    assert xs[..i + 1] == xs[..i] + [xs[i]];
    NegsSnoc(xs, i);
  }

  lemma ImplyAndStep(c0: seq<seq<int>>, lhs: int, xs: seq<int>, i: nat)
    requires i < |xs|
    ensures c0 + ImplyAndCnf(lhs, xs[..i]) + ImplyCnf(lhs, xs[i]) == c0 + ImplyAndCnf(lhs, xs[..i + 1])
  {
    ImplyEachSnoc([-lhs], xs, i);
    assert [-lhs] + [xs[i]] == [-lhs, xs[i]];
  }

  lemma ImplyImplyAndStep(c0: seq<seq<int>>, x1: int, x2: int, xs: seq<int>, i: nat)
    requires i < |xs|
    ensures c0 + ImplyImplyAndCnf(x1, x2, xs[..i]) + ImplyImplyCnf(x1, x2, xs[i]) ==
      c0 + ImplyImplyAndCnf(x1, x2, xs[..i + 1])
  {
    ImplyEachSnoc([-x1, -x2], xs, i);
    assert [-x1, -x2] + [xs[i]] == [-x1, -x2, xs[i]];
  }

  lemma ImplyImplyImplyAndStep(c0: seq<seq<int>>, x1: int, x2: int, x3: int, xs: seq<int>, i: nat)
    requires i < |xs|
    ensures c0 + ImplyImplyImplyAndCnf(x1, x2, x3, xs[..i]) + ImplyImplyImplyCnf(x1, x2, x3, xs[i]) ==
      c0 + ImplyImplyImplyAndCnf(x1, x2, x3, xs[..i + 1])
  {
    ImplyEachSnoc([-x1, -x2, -x3], xs, i);
    assert [-x1, -x2, -x3] + [xs[i]] == [-x1, -x2, -x3, xs[i]];
  }

  lemma IffOrStep(c0: seq<seq<int>>, lhs: int, xs: seq<int>, i: nat)
    requires i < |xs|
    ensures c0 + ImpliedBy(xs[..i], lhs) + ImplyCnf(xs[i], lhs) == c0 + ImpliedBy(xs[..i + 1], lhs)
  {
    ImpliedBySnoc(xs, lhs, i);
  }

  lemma ImplyIffOrStep(c0: seq<seq<int>>, x1: int, x2: int, xs: seq<int>, i: nat)
    requires i < |xs|
    ensures c0 + ImplyEachInto([-x1], xs[..i], x2) + ImplyImplyCnf(x1, xs[i], x2) ==
      c0 + ImplyEachInto([-x1], xs[..i + 1], x2)
  {
    ImplyEachIntoSnoc([-x1], xs, x2, i);
    assert [-x1] + [-xs[i], x2] == [-x1, -xs[i], x2];
  }

  lemma Append1(c0: seq<seq<int>>, a: seq<seq<int>>, x: seq<int>)
    ensures c0 + a + [x] == c0 + (a + [x])
  {
  }

  lemma Append2(c0: seq<seq<int>>, a: seq<seq<int>>, x: seq<int>, y: seq<int>)
    ensures c0 + a + [x] + [y] == c0 + (a + [x, y])
  {
  }

  lemma ImplyEachSnoc(prefix: seq<int>, xs: seq<int>, i: nat)
    requires i < |xs|
    ensures ImplyEach(prefix, xs[..i + 1]) == ImplyEach(prefix, xs[..i]) + [prefix + [xs[i]]]
  {
  }

  lemma ImpliedBySnoc(xs: seq<int>, l: int, i: nat)
    requires i < |xs|
    ensures ImpliedBy(xs[..i + 1], l) == ImpliedBy(xs[..i], l) + [[-xs[i], l]]
  {
  }

  lemma ImplyEachIntoSnoc(prefix: seq<int>, xs: seq<int>, l: int, i: nat)
    requires i < |xs|
    ensures ImplyEachInto(prefix, xs[..i + 1], l) == ImplyEachInto(prefix, xs[..i], l) + [prefix + [-xs[i], l]]
  {
  }

  /** A guard prefix of non-zero literals followed by non-zero literals is a valid clause. */
  lemma PrefixedValid(prefix: seq<int>, xs: seq<int>)
    requires |prefix| > 0 && NonZero(prefix) && NonZero(xs)
    ensures ValidClause(prefix + xs) && ValidClause(prefix + Negs(xs))
  {
  }

  lemma NegsSnoc(xs: seq<int>, i: nat)
    requires i < |xs|
    ensures Negs(xs[..i + 1]) == Negs(xs[..i]) + [-xs[i]]
  {
  }

  /** `imply`: adds `[-lhs, rhs]`. */
  method Imply(cnf: Cnf, lhs: int, rhs: int)
    requires cnf.Valid() && lhs != 0 && rhs != 0
    modifies cnf
    ensures cnf.Valid() && cnf.clauses == old(cnf.clauses) + ImplyCnf(lhs, rhs)
  {
    cnf.AddClause([-lhs, rhs]);
  }

  method Iff(cnf: Cnf, lhs: int, rhs: int)
    requires cnf.Valid() && lhs != 0 && rhs != 0
    modifies cnf
    ensures cnf.Valid() && cnf.clauses == old(cnf.clauses) + IffCnf(lhs, rhs)
  {
    Imply(cnf, lhs, rhs);
    Imply(cnf, rhs, lhs);
  }

  method Ite(cnf: Cnf, cond: int, a: int, b: int)
    requires cnf.Valid() && cond != 0 && a != 0 && b != 0
    modifies cnf
    ensures cnf.Valid() && cnf.clauses == old(cnf.clauses) + IteCnf(cond, a, b)
  {
    Imply(cnf, cond, a);
    Imply(cnf, -cond, b);
  }

  method ImplyAnd(cnf: Cnf, lhs: int, xs: seq<int>)
    requires cnf.Valid() && lhs != 0 && NonZero(xs)
    modifies cnf
    ensures cnf.Valid() && cnf.clauses == old(cnf.clauses) + ImplyAndCnf(lhs, xs)
  {
    ghost var c0 := cnf.clauses;
    var i := 0;
    while i < |xs|
      invariant 0 <= i <= |xs| && cnf.Valid()
      invariant cnf.clauses == c0 + ImplyAndCnf(lhs, xs[..i])
    {
      ImplyAndStep(c0, lhs, xs, i);
      Imply(cnf, lhs, xs[i]);
      i := i + 1;
    }
    assert xs[..i] == xs;
  }

  method ImplyOr(cnf: Cnf, lhs: int, rhs: seq<int>)
    requires cnf.Valid() && lhs != 0 && NonZero(rhs)
    modifies cnf
    ensures cnf.Valid() && cnf.clauses == old(cnf.clauses) + ImplyOrCnf(lhs, rhs)
  {
    cnf.AddClause([-lhs] + rhs);
  }

  method ImplyImply(cnf: Cnf, x1: int, x2: int, x3: int)
    requires cnf.Valid() && x1 != 0 && x2 != 0 && x3 != 0
    modifies cnf
    ensures cnf.Valid() && cnf.clauses == old(cnf.clauses) + ImplyImplyCnf(x1, x2, x3)
  {
    cnf.AddClause([-x1, -x2, x3]);
  }

  method ImplyIff(cnf: Cnf, x1: int, x2: int, x3: int)
    requires cnf.Valid() && x1 != 0 && x2 != 0 && x3 != 0
    modifies cnf
    ensures cnf.Valid() && cnf.clauses == old(cnf.clauses) + ImplyIffCnf(x1, x2, x3)
  {
    ImplyImply(cnf, x1, x2, x3);
    ImplyImply(cnf, x1, x3, x2);
  }

  method ImplyIte(cnf: Cnf, lhs: int, cond: int, a: int, b: int)
    requires cnf.Valid() && lhs != 0 && cond != 0 && a != 0 && b != 0
    modifies cnf
    ensures cnf.Valid() && cnf.clauses == old(cnf.clauses) + ImplyIteCnf(lhs, cond, a, b)
  {
    ImplyImply(cnf, lhs, cond, a);
    ImplyImply(cnf, lhs, -cond, b);
  }

  method ImplyImplyAnd(cnf: Cnf, x1: int, x2: int, xs: seq<int>)
    requires cnf.Valid() && x1 != 0 && x2 != 0 && NonZero(xs)
    modifies cnf
    ensures cnf.Valid() && cnf.clauses == old(cnf.clauses) + ImplyImplyAndCnf(x1, x2, xs)
  {
    ghost var c0 := cnf.clauses;
    var i := 0;
    while i < |xs|
      invariant 0 <= i <= |xs| && cnf.Valid()
      invariant cnf.clauses == c0 + ImplyImplyAndCnf(x1, x2, xs[..i])
    {
      ImplyImplyAndStep(c0, x1, x2, xs, i);
      ImplyImply(cnf, x1, x2, xs[i]);
      i := i + 1;
    }
    assert xs[..i] == xs;
  }

  method ImplyImplyOr(cnf: Cnf, x1: int, x2: int, xs: seq<int>)
    requires cnf.Valid() && x1 != 0 && x2 != 0 && NonZero(xs)
    modifies cnf
    ensures cnf.Valid() && cnf.clauses == old(cnf.clauses) + ImplyImplyOrCnf(x1, x2, xs)
  {
    cnf.AddClause([-x1, -x2] + xs);
  }

  method ImplyImplyImply(cnf: Cnf, x1: int, x2: int, x3: int, x4: int)
    requires cnf.Valid() && x1 != 0 && x2 != 0 && x3 != 0 && x4 != 0
    modifies cnf
    ensures cnf.Valid() && cnf.clauses == old(cnf.clauses) + ImplyImplyImplyCnf(x1, x2, x3, x4)
  {
    cnf.AddClause([-x1, -x2, -x3, x4]);
  }

  method ImplyImplyIff(cnf: Cnf, x1: int, x2: int, x3: int, x4: int)
    requires cnf.Valid() && x1 != 0 && x2 != 0 && x3 != 0 && x4 != 0
    modifies cnf
    ensures cnf.Valid() && cnf.clauses == old(cnf.clauses) + ImplyImplyIffCnf(x1, x2, x3, x4)
  {
    ImplyImplyImply(cnf, x1, x2, x3, x4);
    ImplyImplyImply(cnf, x1, x2, x4, x3);
  }

  method ImplyImplyIte(cnf: Cnf, x1: int, x2: int, cond: int, a: int, b: int)
    requires cnf.Valid() && x1 != 0 && x2 != 0 && cond != 0 && a != 0 && b != 0
    modifies cnf
    ensures cnf.Valid() && cnf.clauses == old(cnf.clauses) + ImplyImplyIteCnf(x1, x2, cond, a, b)
  {
    ImplyImplyImply(cnf, x1, x2, cond, a);
    ImplyImplyImply(cnf, x1, x2, -cond, b);
  }

  method ImplyImplyImplyAnd(cnf: Cnf, x1: int, x2: int, x3: int, xs: seq<int>)
    requires cnf.Valid() && x1 != 0 && x2 != 0 && x3 != 0 && NonZero(xs)
    modifies cnf
    ensures cnf.Valid() && cnf.clauses == old(cnf.clauses) + ImplyImplyImplyAndCnf(x1, x2, x3, xs)
  {
    ghost var c0 := cnf.clauses;
    var i := 0;
    while i < |xs|
      invariant 0 <= i <= |xs| && cnf.Valid()
      invariant cnf.clauses == c0 + ImplyImplyImplyAndCnf(x1, x2, x3, xs[..i])
    {
      ImplyImplyImplyAndStep(c0, x1, x2, x3, xs, i);
      ImplyImplyImply(cnf, x1, x2, x3, xs[i]);
      i := i + 1;
    }
    assert xs[..i] == xs;
  }

  method ImplyImplyImplyOr(cnf: Cnf, x1: int, x2: int, x3: int, xs: seq<int>)
    requires cnf.Valid() && x1 != 0 && x2 != 0 && x3 != 0 && NonZero(xs)
    modifies cnf
    ensures cnf.Valid() && cnf.clauses == old(cnf.clauses) + ImplyImplyImplyOrCnf(x1, x2, x3, xs)
  {
    cnf.AddClause([-x1, -x2, -x3] + xs);
  }

  method ImplyImplyImplyImply(cnf: Cnf, x1: int, x2: int, x3: int, x4: int, x5: int)
    requires cnf.Valid() && x1 != 0 && x2 != 0 && x3 != 0 && x4 != 0 && x5 != 0
    modifies cnf
    ensures cnf.Valid() && cnf.clauses == old(cnf.clauses) + ImplyImplyImplyImplyCnf(x1, x2, x3, x4, x5)
  {
    cnf.AddClause([-x1, -x2, -x3, -x4, x5]);
  }

  method ImplyImplyImplyIff(cnf: Cnf, x1: int, x2: int, x3: int, x4: int, x5: int)
    requires cnf.Valid() && x1 != 0 && x2 != 0 && x3 != 0 && x4 != 0 && x5 != 0
    modifies cnf
    ensures cnf.Valid() && cnf.clauses == old(cnf.clauses) + ImplyImplyImplyIffCnf(x1, x2, x3, x4, x5)
  {
    ImplyImplyImplyImply(cnf, x1, x2, x3, x4, x5);
    ImplyImplyImplyImply(cnf, x1, x2, x3, x5, x4);
  }

  method ImplyImplyImplyIte(cnf: Cnf, x1: int, x2: int, x3: int, cond: int, a: int, b: int)
    requires cnf.Valid() && x1 != 0 && x2 != 0 && x3 != 0 && cond != 0 && a != 0 && b != 0
    modifies cnf
    ensures cnf.Valid() && cnf.clauses == old(cnf.clauses) + ImplyImplyImplyIteCnf(x1, x2, x3, cond, a, b)
  {
    ImplyImplyImplyImply(cnf, x1, x2, x3, cond, a);
    ImplyImplyImplyImply(cnf, x1, x2, x3, -cond, b);
  }

  /** `iff_and`: one `imply(lhs, x)` per `x` while collecting `[lhs, -x1, ..., -xn]`, which is added last. */
  method IffAnd(cnf: Cnf, lhs: int, xs: seq<int>)
    requires cnf.Valid() && lhs != 0 && NonZero(xs)
    modifies cnf
    ensures cnf.Valid() && cnf.clauses == old(cnf.clauses) + IffAndCnf(lhs, xs)
  {
    ghost var c0 := cnf.clauses;
    var v := [lhs];
    var i := 0;
    while i < |xs|
      invariant 0 <= i <= |xs| && cnf.Valid()
      invariant v == [lhs] + Negs(xs[..i])
      invariant cnf.clauses == c0 + ImplyAndCnf(lhs, xs[..i])
    {
      ImplyAndStep(c0, lhs, xs, i);
      CollectStep([lhs], xs, i);
      v := v + [-xs[i]];
      Imply(cnf, lhs, xs[i]);
      i := i + 1;
    }
    assert xs[..i] == xs;
    PrefixedValid([lhs], xs);
    cnf.AddClause(v);
    Append1(c0, ImplyAndCnf(lhs, xs), v);
  }

  /** `iff_or`: one `imply(x, lhs)` per `x` while collecting `[-lhs, x1, ..., xn]`, which is added last. */
  method IffOr(cnf: Cnf, lhs: int, xs: seq<int>)
    requires cnf.Valid() && lhs != 0 && NonZero(xs)
    modifies cnf
    ensures cnf.Valid() && cnf.clauses == old(cnf.clauses) + IffOrCnf(lhs, xs)
  {
    ghost var c0 := cnf.clauses;
    var v := [-lhs];
    var i := 0;
    while i < |xs|
      invariant 0 <= i <= |xs| && cnf.Valid()
      invariant v == [-lhs] + xs[..i]
      invariant cnf.clauses == c0 + ImpliedBy(xs[..i], lhs)
    {
      IffOrStep(c0, lhs, xs, i);
      CollectStep([-lhs], xs, i);
      v := v + [xs[i]];
      Imply(cnf, xs[i], lhs);
      i := i + 1;
    }
    assert xs[..i] == xs;
    PrefixedValid([-lhs], xs);
    cnf.AddClause(v);
    Append1(c0, ImpliedBy(xs, lhs), v);
  }

  method IffImply(cnf: Cnf, lhs: int, x1: int, x2: int)
    requires cnf.Valid() && lhs != 0 && x1 != 0 && x2 != 0
    modifies cnf
    ensures cnf.Valid() && cnf.clauses == old(cnf.clauses) + IffImplyCnf(lhs, x1, x2)
  {
    ghost var c0 := cnf.clauses;
    ImplyImply(cnf, lhs, x1, x2);
    cnf.AddClause([lhs, x1]);
    cnf.AddClause([lhs, -x2]);
    Append2(c0, ImplyImplyCnf(lhs, x1, x2), [lhs, x1], [lhs, -x2]);
  }

  method IffIff(cnf: Cnf, lhs: int, x1: int, x2: int)
    requires cnf.Valid() && lhs != 0 && x1 != 0 && x2 != 0
    modifies cnf
    ensures cnf.Valid() && cnf.clauses == old(cnf.clauses) + IffIffCnf(lhs, x1, x2)
  {
    ghost var c0 := cnf.clauses;
    ImplyIff(cnf, lhs, x1, x2);
    cnf.AddClause([lhs, -x1, -x2]);
    cnf.AddClause([lhs, x1, x2]);
    Append2(c0, ImplyIffCnf(lhs, x1, x2), [lhs, -x1, -x2], [lhs, x1, x2]);
  }

  method IffIte(cnf: Cnf, lhs: int, cond: int, a: int, b: int)
    requires cnf.Valid() && lhs != 0 && cond != 0 && a != 0 && b != 0
    modifies cnf
    ensures cnf.Valid() && cnf.clauses == old(cnf.clauses) + IffIteCnf(lhs, cond, a, b)
  {
    ImplyIte(cnf, lhs, cond, a, b);
    ImplyImply(cnf, cond, a, lhs);
    ImplyImply(cnf, -cond, b, lhs);
  }

  /** `imply_iff_and`: one `imply_imply(x1, x2, x)` per `x`, then `[-x1, x2, -x...]`. */
  method ImplyIffAnd(cnf: Cnf, x1: int, x2: int, xs: seq<int>)
    requires cnf.Valid() && x1 != 0 && x2 != 0 && NonZero(xs)
    modifies cnf
    ensures cnf.Valid() && cnf.clauses == old(cnf.clauses) + ImplyIffAndCnf(x1, x2, xs)
  {
    ghost var c0 := cnf.clauses;
    var v := [-x1, x2];
    var i := 0;
    while i < |xs|
      invariant 0 <= i <= |xs| && cnf.Valid()
      invariant v == [-x1, x2] + Negs(xs[..i])
      invariant cnf.clauses == c0 + ImplyImplyAndCnf(x1, x2, xs[..i])
    {
      ImplyImplyAndStep(c0, x1, x2, xs, i);
      CollectStep([-x1, x2], xs, i);
      v := v + [-xs[i]];
      ImplyImply(cnf, x1, x2, xs[i]);
      i := i + 1;
    }
    assert xs[..i] == xs;
    PrefixedValid([-x1, x2], xs);
    cnf.AddClause(v);
    Append1(c0, ImplyImplyAndCnf(x1, x2, xs), v);
  }

  /** `imply_iff_or`: one `imply_imply(x1, x, x2)` per `x`, then `[-x1, -x2, x...]`. */
  method ImplyIffOr(cnf: Cnf, x1: int, x2: int, xs: seq<int>)
    requires cnf.Valid() && x1 != 0 && x2 != 0 && NonZero(xs)
    modifies cnf
    ensures cnf.Valid() && cnf.clauses == old(cnf.clauses) + ImplyIffOrCnf(x1, x2, xs)
  {
    ghost var c0 := cnf.clauses;
    var v := [-x1, -x2];
    var i := 0;
    while i < |xs|
      invariant 0 <= i <= |xs| && cnf.Valid()
      invariant v == [-x1, -x2] + xs[..i]
      invariant cnf.clauses == c0 + ImplyEachInto([-x1], xs[..i], x2)
    {
      ImplyIffOrStep(c0, x1, x2, xs, i);
      CollectStep([-x1, -x2], xs, i);
      v := v + [xs[i]];
      ImplyImply(cnf, x1, xs[i], x2);
      i := i + 1;
    }
    assert xs[..i] == xs;
    PrefixedValid([-x1, -x2], xs);
    cnf.AddClause(v);
    Append1(c0, ImplyEachInto([-x1], xs, x2), v);
  }

}
