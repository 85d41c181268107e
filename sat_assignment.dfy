/** The per-variable assignment of the solver (lib/simple-sat/src/assignment.rs). */
module Assignment {
  import opened LBool
  import opened SatLit

  /** `value(lit)`: the variable's value xor-ed with the literal's polarity. */
  function LitValue(values: seq<LBool>, l: Lit): (r: LBool)
    requires Var(l) as int < |values|
    ensures r == Undef <==> values[Var(l)] == Undef
    ensures !Negated(l) ==> r == values[Var(l)]
    ensures Negated(l) && values[Var(l)] == True ==> r == False
    ensures Negated(l) && values[Var(l)] == False ==> r == True
  {
    Xor(values[Var(l)], Negated(l))
  }

  /** The two literals of a variable read opposite values. */
  lemma LitValueNot(values: seq<LBool>, l: Lit)
    requires Var(l) as int < |values|
    ensures LitValue(values, Not(l)) == Xor(LitValue(values, l), true)
  {
  }

  class Assignment {
    var values: seq<LBool>

    constructor ()
      ensures values == []
    {
      values := [];
    }

    function ValueVar(v: u32): LBool
      reads this
      requires v as int < |values|
    {
      values[v]
    }

    function Value(l: Lit): (r: LBool)
      reads this
      requires Var(l) as int < |values|
      ensures r == LitValue(values, l)
    {
      Xor(ValueVar(Var(l)), Negated(l))
    }

    /** A write through `assignment[var] = x`. */
    method Set(v: u32, x: LBool)
      requires v as int < |values|
      modifies this
      ensures values == old(values)[v := x]
      ensures ValueVar(v) == x
      ensures forall w: u32 :: w as int < |values| && w != v ==> ValueVar(w) == old(ValueVar(w))
    {
      values := values[v := x];
    }
  }
}
