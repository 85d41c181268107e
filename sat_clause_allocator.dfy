/** Clauses of the solver (lib/simple-sat/src/clause.rs). */
module SatClause {
  import opened SatLit

  /** `Clause::new(lits, learnt)`. */
  datatype Clause = Clause(lits: seq<Lit>, learnt: bool)
}

/** A store of clauses addressed by `ClauseRef` (lib/simple-sat/src/clause_allocator.rs). */
module ClauseAllocator {
  import opened SatLit
  import opened SatClause

  class ClauseAllocator {
    var clauses: seq<Clause>
    var learnts: seq<nat>

    /** Every learnt reference names a learnt clause of the store. */
    ghost predicate Valid()
      reads this
    {
      forall i :: 0 <= i < |learnts| ==> learnts[i] < |clauses| && clauses[learnts[i]].learnt
    }

    constructor ()
      ensures Valid() && clauses == [] && learnts == []
    {
      clauses := [];
      learnts := [];
    }

    function NumClauses(): nat reads this { |clauses| }

    function NumLearnts(): nat reads this { |learnts| }

    /** `alloc`: the new reference is the old number of clauses. */
    method Alloc(lits: seq<Lit>, learnt: bool) returns (cref: nat)
      requires Valid()
      modifies this
      ensures Valid()
      ensures cref == old(NumClauses()) && NumClauses() == cref + 1
      ensures clauses == old(clauses) + [Clause(lits, learnt)]
      ensures learnts == if learnt then old(learnts) + [cref] else old(learnts)
      ensures ClauseOf(cref) == Clause(lits, learnt)
    {
      cref := |clauses|;
      clauses := clauses + [Clause(lits, learnt)];
      if learnt {
        learnts := learnts + [cref];
      }
    }

    /** `clause(cref)`. */
    function ClauseOf(cref: nat): Clause
      reads this
      requires cref < |clauses|
    {
      clauses[cref]
    }
  }
}
