/**
 * Powers of two and the most-significant-bit-first reading of a bit vector,
 * shared by the bit-vector encodings and the bit utilities of the workspace.
 */
module BitVec {
  /** Bit `i` of `x`, counting from the least significant (`(x >> i) & 1 != 0`). */
  function Bit(x: nat, i: nat): bool
  {
    if i == 0 then x % 2 == 1 else Bit(x / 2, i - 1)
  }

  function Pow2(k: nat): (r: nat)
    ensures r >= 1
  {
    if k == 0 then 1 else 2 * Pow2(k - 1)
  }

  /** There is no power of two strictly between `2^j` and `2^(j+1)`. */
  lemma {:induction false} Pow2Gap(j: nat, n: nat)
    requires Pow2(j) < Pow2(n)
    ensures 2 * Pow2(j) <= Pow2(n)
  {
    if j > 0 {
      Pow2Gap(j - 1, n - 1);
    }
  }

  lemma {:induction false} Pow2Add(a: nat, b: nat)
    ensures Pow2(a + b) == Pow2(a) * Pow2(b)
  {
    if a > 0 {
      Pow2Add(a - 1, b);
    }
  }

  /** The value of a bit vector, most significant bit first. */
  function Num(bits: seq<bool>): nat
  {
    if |bits| == 0 then 0 else (if bits[0] then Pow2(|bits| - 1) else 0) + Num(bits[1..])
  }

  /** An `n`-bit vector is below `2^n`. */
  lemma {:induction false} NumBound(bits: seq<bool>)
    ensures Num(bits) < Pow2(|bits|)
  {
    if |bits| > 0 {
      NumBound(bits[1..]);
    }
  }
}
