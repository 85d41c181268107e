/** Literals, variables and clauses of the IPASIR interface (lib/ipasir/src/types.rs). */
module IpasirTypes {
  import opened Wrappers

  const I32Min: int := -0x8000_0000
  const I32Max: int := 0x7FFF_FFFF

  /** A literal is a non-zero `i32`. */
  datatype Lit = Lit(val: int)
  /** A variable is an `u32`. */
  datatype Var = Var(id: nat)
  datatype Sign = Pos | Neg

  predicate IsI32(x: int) { I32Min <= x <= I32Max }

  /** `new_unchecked`: the caller promises a non-zero value (a debug assertion). */
  function NewUnchecked(val: int): Lit
    requires IsI32(val) && val != 0
  {
    Lit(val)
  }

  function Get(l: Lit): int
  {
    l.val
  }

  /** `var`: the absolute value, as `unsigned_abs` computes it. */
  function VarOf(l: Lit): (v: Var)
    ensures v.id as int == if l.val >= 0 then l.val else -l.val
  {
    Var(if l.val >= 0 then l.val else -l.val)
  }

  /** `sign`: positive exactly for values above zero. */
  function SignOf(l: Lit): (s: Sign)
    ensures s == Pos <==> l.val > 0
  {
    if l.val > 0 then Pos else Neg
  }

  /** `try_from(i32)`: refuses 0 and `i32::MIN`, whose negation has no `i32`. */
  function TryFrom(val: int): (r: Option<Lit>)
    requires IsI32(val)
    ensures r.Some? <==> val != 0 && val != I32Min
    ensures r.Some? ==> r.value.val == val && IsI32(-val)
  {
    if val == 0 || val == I32Min then None else Some(Lit(val))
  }

  /** `Var::lit` (and `Lit::from(var)`): the positive literal, for variables in `i32` range. */
  function VarLit(v: Var): (l: Lit)
    requires 0 < v.id <= I32Max
    ensures SignOf(l) == Pos
  {
    NewUnchecked(v.id)
  }

  /** Accepted literals lead back to their value through variable and sign. */
  lemma TryFromParts(val: int)
    requires IsI32(val) && TryFrom(val).Some?
    ensures var l := TryFrom(val).value;
      Get(if SignOf(l) == Pos then VarLit(VarOf(l)) else Lit(-Get(VarLit(VarOf(l))))) == val
  {
  }

  lemma VarLitRoundTrip(v: Var)
    requires 0 < v.id <= I32Max
    ensures VarOf(VarLit(v)) == v
  {
  }

  /** A clause handed over by the solver: debug-checked to end with the literal 0. */
  predicate WellFormedClause(lits: seq<Lit>)
  {
    |lits| > 0 && lits[|lits| - 1] == Lit(0)
  }

  /** `Clause::from(lits)` with its debug assertions made a precondition. */
  function ClauseFrom(lits: seq<Lit>): (c: seq<Lit>)
    requires WellFormedClause(lits)
    ensures |c| == |lits| && |c| > 0 && c[|c| - 1] == Lit(0)
  {
    lits
  }
}
