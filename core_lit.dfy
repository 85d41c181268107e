/** Literals of the encoding layer: a non-zero `i32` (lib/core/src/lit.rs). */
module CoreLit {
  import opened Semantics

  const I32Min: int := -0x8000_0000
  const I32Max: int := 0x7FFF_FFFF

  predicate IsI32(x: int) { I32Min <= x <= I32Max }

  datatype Lit = Lit(val: int)

  /** `Lit::new` (also `From<i32>`): debug-asserts a non-zero value. */
  function New(val: int): (l: Lit)
    requires IsI32(val) && val != 0
    ensures Get(l) == val
  {
    Lit(val)
  }

  /** `get` and `Into<i32>`. */
  function Get(l: Lit): int
  {
    l.val
  }

  /** `var`: the absolute value. */
  function Var(l: Lit): (v: nat)
    ensures v == l.val || v == -l.val
    ensures l.val != 0 ==> v > 0
  {
    Abs(l.val)
  }

  /** `From<usize>`: `try_into().unwrap()` panics above `i32::MAX`. */
  function FromUsize(n: nat): (l: Lit)
    requires 0 < n <= I32Max
    ensures Get(l) == n && Var(l) == n
  {
    New(n)
  }

  /** `-l`: the same variable with the value negated; negating `i32::MIN` overflows. */
  function Neg(l: Lit): (r: Lit)
    requires IsI32(l.val) && l.val != 0 && l.val != I32Min
    ensures Var(r) == Var(l)
    ensures Get(r) == -Get(l) && r != l
    ensures IsI32(r.val) && r.val != 0 && r.val != I32Min
  {
    New(-l.val)
  }

  lemma NegInvolutive(l: Lit)
    requires IsI32(l.val) && l.val != 0 && l.val != I32Min
    ensures Neg(Neg(l)) == l
  {
  }

  /** The negated literal is true in a model exactly when the literal is false. */
  lemma NegSemantics(m: Model, l: Lit)
    requires IsI32(l.val) && l.val != 0 && l.val != I32Min
    ensures LitTrue(m, Get(Neg(l))) == !LitTrue(m, Get(l))
  {
    NegLit(m, l.val);
  }
}
