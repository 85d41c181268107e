/**
 * MiniSat literals: `2 * var + sign` packed in a `u32` (lib/minisat/src/common/lit.rs).
 * The wrapper struct is modelled by the bit-vector it wraps.
 */
module MinisatLit {
  type Lit = bv32

  /** `mk(var, sign)`: the variable shifted left by one, or-ed with the sign. */
  function Mk(v: bv32, sign: bv32): Lit
  {
    (v << 1) | sign
  }

  /** `Lit::from(var)`: the positive literal of a variable. */
  function FromVar(v: bv32): Lit
  {
    Mk(v, 0)
  }

  function Get(l: Lit): bv32
  {
    l
  }

  /** `var`: the 0-based variable index. */
  function Var(l: Lit): bv32
  {
    l >> 1
  }

  /** `sign`: 0 for a positive literal, 1 for a negative one. */
  function Sign(l: Lit): bv32
  {
    l & 1
  }

  /** `negate` (also the `-` and `!` operators): flips the lowest bit. */
  function Negate(l: Lit): Lit
  {
    l ^ 1
  }

  /** The sign is a single bit. */
  lemma SignBit(l: Lit)
    ensures Sign(l) == 0 || Sign(l) == 1
  {
  }

  /** Negation keeps the variable and flips the sign bit. */
  lemma NegateParts(l: Lit)
    ensures Var(Negate(l)) == Var(l)
    ensures Sign(Negate(l)) == 1 - Sign(l)
    ensures Negate(l) != l
  {
  }

  lemma NegateInvolutive(l: Lit)
    ensures Negate(Negate(l)) == l
  {
  }

  /** A variable below 2^31 and a sign bit survive `mk`. */
  lemma MkRoundTrip(v: bv32, sign: bv32)
    requires v < 0x8000_0000 && (sign == 0 || sign == 1)
    ensures Var(Mk(v, sign)) == v
    ensures Sign(Mk(v, sign)) == sign
  {
  }

  /** The literal of a variable is positive and has that variable. */
  lemma FromVarParts(v: bv32)
    requires v < 0x8000_0000
    ensures Var(FromVar(v)) == v && Sign(FromVar(v)) == 0
  {
    MkRoundTrip(v, 0);
  }

  /** Every literal is `mk` of its own parts. */
  lemma MkOfParts(l: Lit)
    ensures Mk(Var(l), Sign(l)) == l
  {
  }

  /** On the packed value, `mk` is `2 * var + sign` (no wrap-around below 2^31), the representation the type documents. */
  lemma MkArithmetic(v: bv32, sign: bv32)
    requires v < 0x8000_0000 && (sign == 0 || sign == 1)
    ensures Get(Mk(v, sign)) == 2 * v + sign
  {
  }
}
