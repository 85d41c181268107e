/**
 * Literals of the `simple-sat` solver (lib/simple-sat/src/lit.rs): a `u32`
 * code `var << 1 | negated`. The bit operations are written as their
 * arithmetic meaning on 32-bit unsigned values.
 */
module SatLit {
  const U32: nat := 0x1_0000_0000
  const I32Max: int := 0x7FFF_FFFF

  newtype u32 = x: int | 0 <= x < 0x1_0000_0000

  datatype Lit = Lit(code: u32)

  /** `Lit::new(var, negated)`: the shift drops the top bit of `var`. */
  function New(v: u32, negated: bool): (l: Lit)
    ensures Var(l) as int == v as int % 0x8000_0000 && Negated(l) == negated
  {
    Lit(((2 * v as int) % U32 + (if negated then 1 else 0)) as u32)
  }

  /** `var`: the code shifted right by one. */
  function Var(l: Lit): (v: u32)
    ensures 2 * v as int <= l.code as int <= 2 * v as int + 1
  {
    (l.code as int / 2) as u32
  }

  /** `negated`: the low bit. */
  function Negated(l: Lit): (n: bool)
    ensures n <==> l.code as int % 2 == 1
  {
    l.code % 2 != 0
  }

  /** `sign`: -1 for a negated literal, 1 otherwise. */
  function Sign(l: Lit): (s: int)
    ensures s == -1 || s == 1
    ensures s == -1 <==> Negated(l)
  {
    if Negated(l) then -1 else 1
  }

  /** `index`: the code itself, used to index per-literal vectors. */
  function Index(l: Lit): (i: nat)
    ensures i == 2 * Var(l) as int + (if Negated(l) then 1 else 0)
  {
    l.code as nat
  }

  /** `!l` and `-l`: xor of the code with 1. */
  function Not(l: Lit): (r: Lit)
    ensures Var(r) == Var(l) && Negated(r) == !Negated(l)
  {
    if l.code % 2 == 0 then Lit(l.code + 1) else Lit(l.code - 1)
  }

  /** `l ^ b`: xor of the code with `b as u32`. */
  function XorBool(l: Lit, b: bool): (r: Lit)
    ensures Var(r) == Var(l) && Negated(r) == (Negated(l) != b)
  {
    if b then Not(l) else l
  }

  lemma NewRoundTrip(v: u32, n: bool)
    requires v as int <= I32Max
    ensures Var(New(v, n)) == v && Negated(New(v, n)) == n
  {
  }

  lemma NewOfParts(l: Lit)
    ensures New(Var(l), Negated(l)) == l
  {
  }

  lemma NotInvolutive(l: Lit)
    ensures Not(Not(l)) == l && Not(l) != l
  {
  }

  /**
   * External (DIMACS) numbering. The `Var` type lives in a file that is not part
   * of this model; its external number is taken to be the index plus one.
   */
  function VarToExternal(v: u32): nat { v as nat + 1 }

  /** `as i32` of an integer in `0 ..= u32::MAX` or `i32::MIN ..= u32::MAX`: two's complement wrap-around. */
  function WrapI32(x: int): (r: int)
    requires -I32Max - 1 <= x < U32
    ensures -I32Max - 1 <= r <= I32Max && (r - x) % U32 == 0
  {
    if x <= I32Max then x else x - U32
  }

  /**
   * `to_external`: the sign times the external variable number `as i32`.
   * The one variable whose number is `2^31` wraps to `i32::MIN`; the product
   * wraps as well (a release build; a debug build panics on the negated
   * literal's overflow).
   */
  function ToExternal(l: Lit): (e: int)
    ensures -I32Max - 1 <= e <= I32Max
    ensures VarToExternal(Var(l)) <= I32Max ==>
      e != 0 && (e < 0) == Negated(l) && (if e < 0 then -e else e) == VarToExternal(Var(l))
    ensures VarToExternal(Var(l)) > I32Max ==> e == -I32Max - 1
  {
    WrapI32(Sign(l) * WrapI32(VarToExternal(Var(l))))
  }

  /** For the last variable the external literal wraps, and reads back as the negated literal. */
  lemma ExternalWraps(n: bool)
    ensures ToExternal(New(0x7FFF_FFFF, n)) == -I32Max - 1
    ensures FromExternal(ToExternal(New(0x7FFF_FFFF, n))) == New(0x7FFF_FFFF, true)
  {
    var l := New(0x7FFF_FFFF, n);
    assert VarToExternal(Var(l)) == I32Max + 1;
  }

  /** `from_external`: variable from the magnitude, polarity from the sign. */
  function FromExternal(e: int): (l: Lit)
    requires e != 0 && -I32Max - 1 <= e <= I32Max
    ensures Var(l) as int == (if e < 0 then -e else e) - 1
    ensures Negated(l) == (e < 0)
  {
    var mag := if e < 0 then -e else e;
    New((mag - 1) as u32, e < 0)
  }

  lemma ExternalRoundTrip(l: Lit)
    requires VarToExternal(Var(l)) <= I32Max
    ensures FromExternal(ToExternal(l)) == l
  {
    NewOfParts(l);
  }

  lemma InternalRoundTrip(e: int)
    requires e != 0 && -I32Max <= e <= I32Max
    ensures ToExternal(FromExternal(e)) == e
  {
  }
}
