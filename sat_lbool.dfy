/** The three-valued truth value of the `simple-sat` solver (lib/simple-sat/src/lbool.rs). */
module LBool {
  /** `#[repr(u8)]`: False = 0, True = 1, Undef = 2. */
  datatype LBool = False | True | Undef

  function Code(x: LBool): nat
  {
    match x
    case False => 0
    case True => 1
    case Undef => 2
  }

  function FromCode(c: nat): LBool
    requires c <= 2
  {
    if c == 0 then False else if c == 1 then True else Undef
  }

  /** `is_undef`: the discriminant is greater than 1. */
  function IsUndef(x: LBool): (r: bool)
    ensures r <==> x == Undef
  {
    Code(x) > 1
  }

  /** `From<bool>`. */
  function FromBool(b: bool): (r: LBool)
    ensures r != Undef
    ensures (r == True) == b
  {
    if b then True else False
  }

  /** `LBool ^ bool`: Undef stays Undef, otherwise the 0/1 discriminant is xor-ed with the flag. */
  function Xor(x: LBool, b: bool): (r: LBool)
    ensures r == Undef <==> x == Undef
    ensures x != Undef ==> ((r == True) <==> ((x == True) != b))
  {
    match x
    case Undef => Undef
    case _ => FromCode(if (Code(x) == 1) != b then 1 else 0)
  }

  /** The truth table of the unit test. */
  lemma XorTable()
    ensures Xor(False, false) == False && Xor(False, true) == True
    ensures Xor(True, false) == True && Xor(True, true) == False
    ensures Xor(Undef, false) == Undef && Xor(Undef, true) == Undef
  {
  }

  lemma XorInvolutive(x: LBool, b: bool)
    ensures Xor(Xor(x, b), b) == x
  {
  }

  lemma XorFalse(x: LBool)
    ensures Xor(x, false) == x
  {
  }
}
