/**
 * A CNF formula as a clause sink (lib/core/src/cnf/mod.rs): the clauses added
 * so far and the largest variable they mention.
 */
module Cnf {
  import opened Semantics

  /** A clause of literals as the `Lit` type admits them: non-empty, with no literal 0. */
  predicate ValidClause(c: seq<int>)
  {
    |c| > 0 && forall i :: 0 <= i < |c| ==> c[i] != 0
  }

  /** The largest variable of a non-empty clause. */
  function MaxVarClause(c: seq<int>): (r: nat)
    requires |c| > 0
    ensures forall i :: 0 <= i < |c| ==> Abs(c[i]) <= r
    ensures exists i :: 0 <= i < |c| && Abs(c[i]) == r
  {
    if |c| == 1 then Abs(c[0])
    else
      var rest := MaxVarClause(c[1..]);
      assert forall i :: 1 <= i < |c| ==> c[i] == c[1..][i - 1];
      if Abs(c[0]) >= rest then Abs(c[0]) else rest
  }

  function Max(a: nat, b: nat): nat { if a >= b then a else b }

  /** `max_var` after adding `cs` one by one to a formula whose `max_var` is `m`. */
  function MaxAfter(m: nat, cs: seq<seq<int>>): nat
    requires forall k :: 0 <= k < |cs| ==> ValidClause(cs[k])
    decreases |cs|
  {
    if cs == [] then m
    else
      assert ValidClause(cs[0]);
      MaxAfter(Max(m, MaxVarClause(cs[0])), cs[1..])
  }

  /** `MaxAfter` bounds every variable added and is either `m` or one of them. */
  lemma {:induction false} MaxAfterBound(m: nat, cs: seq<seq<int>>)
    requires forall k :: 0 <= k < |cs| ==> ValidClause(cs[k])
    ensures m <= MaxAfter(m, cs)
    ensures forall k, i :: 0 <= k < |cs| && 0 <= i < |cs[k]| ==> Abs(cs[k][i]) <= MaxAfter(m, cs)
    ensures MaxAfter(m, cs) == m ||
      exists k, i :: 0 <= k < |cs| && 0 <= i < |cs[k]| && Abs(cs[k][i]) == MaxAfter(m, cs)
    decreases |cs|
  {
    if cs != [] {
      var m' := Max(m, MaxVarClause(cs[0]));
      MaxAfterBound(m', cs[1..]);
      assert forall k :: 1 <= k < |cs| ==> cs[k] == cs[1..][k - 1];
      if MaxAfter(m, cs) != m && MaxAfter(m', cs[1..]) == m' {
        var i :| 0 <= i < |cs[0]| && Abs(cs[0][i]) == MaxVarClause(cs[0]);
      }
    }
  }

  /** Adding in two batches ends at the same `max_var` as adding at once. */
  lemma {:induction false} MaxAfterAppend(m: nat, a: seq<seq<int>>, b: seq<seq<int>>)
    requires forall k :: 0 <= k < |a| ==> ValidClause(a[k])
    requires forall k :: 0 <= k < |b| ==> ValidClause(b[k])
    ensures MaxAfter(m, a + b) == MaxAfter(MaxAfter(m, a), b)
    decreases |a|
  {
    if a != [] {
      assert (a + b)[1..] == a[1..] + b;
      MaxAfterAppend(Max(m, MaxVarClause(a[0])), a[1..], b);
    } else {
      assert a + b == b;
    }
  }

  class Cnf {
    var maxVar: nat
    var clauses: seq<seq<int>>

    /** `max_var` is the largest variable of all clauses (0 for none), and every clause is valid. */
    ghost predicate Valid()
      reads this
    {
      (forall k :: 0 <= k < |clauses| ==> ValidClause(clauses[k])) &&
      maxVar == MaxAfter(0, clauses)
    }

    constructor ()
      ensures Valid() && clauses == [] && maxVar == 0
    {
      maxVar := 0;
      clauses := [];
    }

    /** `add`: appends the clause and raises `max_var`; the `unwrap` needs a non-empty clause. */
    method Add(c: seq<int>)
      requires Valid() && ValidClause(c)
      modifies this
      ensures Valid()
      ensures clauses == old(clauses) + [c]
      ensures maxVar == Max(old(maxVar), MaxVarClause(c))
    {
      MaxAfterAppend(0, clauses, [c]);
      maxVar := Max(maxVar, MaxVarClause(c));
      clauses := clauses + [c];
    }

    /** `AddClause::add_clause`: builds the clause and adds it. */
    method AddClause(lits: seq<int>)
      requires Valid() && ValidClause(lits)
      modifies this
      ensures Valid()
      ensures clauses == old(clauses) + [lits]
      ensures maxVar == Max(old(maxVar), MaxVarClause(lits))
    {
      Add(lits);
    }

    /** `extend`: repeated `add`. */
    method Extend(cs: seq<seq<int>>)
      requires Valid() && forall k :: 0 <= k < |cs| ==> ValidClause(cs[k])
      modifies this
      ensures Valid()
      ensures clauses == old(clauses) + cs
      ensures maxVar == MaxAfter(old(maxVar), cs)
    {
      var i := 0;
      while i < |cs|
        invariant 0 <= i <= |cs|
        invariant Valid()
        invariant clauses == old(clauses) + cs[..i]
        invariant MaxAfter(old(maxVar), cs) == MaxAfter(maxVar, cs[i..])
      {
        assert cs[i..][1..] == cs[i + 1..];
        Add(cs[i]);
        assert cs[..i + 1] == cs[..i] + [cs[i]];
        i := i + 1;
      }
      assert cs[..i] == cs;
    }
  }

  /** `from_iter`: a new formula with the clauses added in order. */
  method FromIter(cs: seq<seq<int>>) returns (cnf: Cnf)
    requires forall k :: 0 <= k < |cs| ==> ValidClause(cs[k])
    ensures fresh(cnf) && cnf.Valid()
    ensures cnf.clauses == cs
    ensures cnf.maxVar == MaxAfter(0, cs)
  {
    cnf := new Cnf();
    cnf.Extend(cs);
  }

  /** The formula's `max_var` bounds every variable of its clauses. */
  lemma MaxVarBounds(maxVar: nat, clauses: seq<seq<int>>)
    requires forall k :: 0 <= k < |clauses| ==> ValidClause(clauses[k])
    requires maxVar == MaxAfter(0, clauses)
    ensures forall k, i :: 0 <= k < |clauses| && 0 <= i < |clauses[k]| ==> Abs(clauses[k][i]) <= maxVar
    ensures maxVar == 0 <==> clauses == []
  {
    MaxAfterBound(0, clauses);
    if clauses != [] {
      assert Abs(clauses[0][0]) > 0;
    }
  }
}
