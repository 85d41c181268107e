/**
 * The restart schedule and the DIMACS clause tokeniser of the `simple-sat`
 * solver (lib/simple-sat/src/utils.rs).
 */
module SatUtils {
  import opened Wrappers
  import opened Text
  import opened SatLit
  import opened BitVec

  // ---------- Luby ----------

  function Power(y: int, k: nat): int
  {
    if k == 0 then 1 else y * Power(y, k - 1)
  }

  /** The number of binary digits of `i`, i.e. the least `k` with `i < 2^k`. */
  function Bits(i: nat): nat
  {
    if i == 0 then 0 else 1 + Bits(i / 2)
  }

  lemma {:induction false} BitsBounds(i: nat)
    requires i > 0
    ensures Bits(i) >= 1 && Pow2(Bits(i) - 1) <= i < Pow2(Bits(i))
  {
    if i > 1 {
      BitsBounds(i / 2);
    }
  }

  lemma {:induction false} BitsOfBounds(i: nat, k: nat)
    requires k >= 1 && Pow2(k - 1) <= i < Pow2(k)
    ensures Bits(i) == k
  {
    if k > 1 {
      BitsOfBounds(i / 2, k - 1);
    }
  }

  /**
   * The Luby sequence, 1-based, as exponents of its base, read inside its
   * complete prefix of `2^k - 1` terms: that prefix is the prefix of
   * `2^(k-1) - 1` terms twice over, followed by the exponent `k - 1`.
   */
  function LubyAt(i: nat, k: nat): nat
    requires 1 <= i < Pow2(k)
    decreases k
  {
    if i == Pow2(k) - 1 then k - 1
    else if i < Pow2(k - 1) then LubyAt(i, k - 1)
    else LubyAt(i - (Pow2(k - 1) - 1), k - 1)
  }

  /** The `i`th term of the Luby sequence, read in the shortest complete prefix that holds it. */
  function LubyExponent(i: nat): nat
    requires i >= 1
  {
    BitsBounds(i);
    LubyAt(i, Bits(i))
  }

  /** A longer complete prefix starts with the shorter one. */
  lemma LubyWiden(i: nat, k: nat)
    requires 1 <= i < Pow2(k)
    ensures Pow2(k) < Pow2(k + 1)
    ensures LubyAt(i, k + 1) == LubyAt(i, k)
  {
    assert Pow2(k + 1) == 2 * Pow2(k);
  }

  lemma {:induction false} LubyAtAny(i: nat, j: nat, k: nat)
    requires 1 <= i < Pow2(j) && j <= k
    ensures i < Pow2(k) && LubyAt(i, k) == LubyAt(i, j)
    decreases k - j
  {
    if j < k {
      LubyWiden(i, j);
      LubyAtAny(i, j + 1, k);
    }
  }

  lemma {:induction false} BitsAtMost(i: nat, k: nat)
    requires i < Pow2(k)
    ensures Bits(i) <= k
  {
    if i > 0 {
      BitsAtMost(i / 2, k - 1);
    }
  }

  /** Every complete prefix that holds index `i` gives the same term. */
  lemma LubyCanonical(i: nat, k: nat)
    requires 1 <= i < Pow2(k)
    ensures LubyExponent(i) == LubyAt(i, k)
  {
    BitsBounds(i);
    BitsAtMost(i, k);
    LubyAtAny(i, Bits(i), k);
  }

  /** One step of the second loop of `luby`: halve the subsequence and move the index into it. */
  lemma LubyHalve(x: nat, sq: nat, size: nat)
    requires size == Pow2(sq + 1) - 1 && x < size && size - 1 != x
    ensures sq >= 1 && (size - 1) / 2 == Pow2(sq) - 1 > 0
    ensures x % ((size - 1) / 2) < (size - 1) / 2
    ensures LubyAt(x + 1, sq + 1) == LubyAt(x % ((size - 1) / 2) + 1, sq)
  {
    assert Pow2(sq + 1) == 2 * Pow2(sq);
    assert sq >= 1;
    assert Pow2(sq) == 2 * Pow2(sq - 1);
    var m := Pow2(sq) - 1;
    if x >= m {
      ModSub(x, m);
    } else {
      SmallMod(x, m);
    }
  }

  lemma SmallMod(a: nat, m: nat)
    requires a < m
    ensures a % m == a
  {
  }

  lemma ModSub(x: nat, m: nat)
    requires 0 < m <= x < 2 * m
    ensures x % m == x - m
  {
    var q := x / m;
    assert x == q * m + x % m;
    assert q == 1;
  }

  lemma Pow2U32()
    ensures Pow2(32) == U32
  {
    assert Pow2(4) == 16;
    Pow2Add(4, 4);
    Pow2Add(8, 8);
    Pow2Add(16, 16);
  }

  /**
   * The second loop of `luby`: inside the complete subsequence of size
   * `2^(sq+1) - 1` that holds index `x`, halve the subsequence until `x` is
   * its last index; the exponent is then the level reached.
   */
  method LubyDescent(x0: nat, size0: nat, sq0: nat) returns (sq: nat)
    requires size0 == Pow2(sq0 + 1) - 1 && x0 < size0
    ensures sq == LubyAt(x0 + 1, sq0 + 1)
  {
    var x, size := x0, size0;
    sq := sq0;
    while size - 1 != x
      invariant size == Pow2(sq + 1) - 1 && x < size
      invariant LubyAt(x + 1, sq + 1) == LubyAt(x0 + 1, sq0 + 1)
      decreases size
    {
      LubyHalve(x, sq, size);
      size := (size - 1) / 2;
      sq := sq - 1;
      x := x % size;
    }
  }

  /**
   * `luby(y, x)`: the `x`th (0-based) term of the Luby sequence with base
   * `y`. The first loop finds the smallest complete subsequence of size
   * `2^(seq+1) - 1` holding index `x`; the second descends into it. The
   * `u32` arithmetic never overflows once `x + 1` does not.
   */
  method Luby(y: int, x0: nat) returns (r: int)
    requires x0 + 1 < U32
    ensures r == Power(y, LubyExponent(x0 + 1))
  {
    var size: nat := 1;
    var sq: nat := 0;
    Pow2U32();
    while size < x0 + 1
      invariant size == Pow2(sq + 1) - 1 && size < U32
      decreases x0 + 1 - size
    {
      Pow2Gap(sq + 1, 32);
      sq := sq + 1;
      size := 2 * size + 1;
    }
    LubyCanonical(x0 + 1, sq + 1);
    sq := LubyDescent(x0, size, sq);
    r := Power(y, sq);
  }

  /** The start of the restart schedule: 1, 1, 2, 1, 1, 2, 4, 1, 1, 2 (as powers of 2). */
  lemma LubyPrefix()
    ensures LubyExponent(1) == 0 && LubyExponent(2) == 0 && LubyExponent(3) == 1
    ensures LubyExponent(4) == 0 && LubyExponent(5) == 0 && LubyExponent(6) == 1
    ensures LubyExponent(7) == 2 && LubyExponent(8) == 0 && LubyExponent(9) == 0
    ensures LubyExponent(10) == 1
  {
    assert Pow2(4) == 16;
    LubyCanonical(1, 4);
    LubyCanonical(2, 4);
    LubyCanonical(3, 4);
    LubyCanonical(4, 4);
    LubyCanonical(5, 4);
    LubyCanonical(6, 4);
    LubyCanonical(7, 4);
    LubyCanonical(8, 4);
    LubyCanonical(9, 4);
    LubyCanonical(10, 4);
  }

  // ---------- DIMACS clause lines ----------

  const I32Min: int := -0x8000_0000

  /** `parse::<i32>` of every token; `None` where the `expect` would panic. */
  function ParseTokens(ts: seq<string>): (r: Option<seq<int>>)
    ensures r.Some? ==> |r.value| == |ts|
    ensures r.Some? ==> forall i :: 0 <= i < |ts| ==> ParseSigned(ts[i], I32Min, I32Max + 1) == Some(r.value[i])
    ensures r.None? ==> exists i :: 0 <= i < |ts| && ParseSigned(ts[i], I32Min, I32Max + 1).None?
  {
    if |ts| == 0 then Some([])
    else
      match ParseSigned(ts[0], I32Min, I32Max + 1)
      case None => None
      case Some(v) =>
        match ParseTokens(ts[1..])
        case None => None
        case Some(vs) => Some([v] + vs)
  }

  function FromExternals(vs: seq<int>): (r: seq<Lit>)
    requires forall i :: 0 <= i < |vs| ==> vs[i] != 0 && I32Min <= vs[i] <= I32Max
    ensures |r| == |vs| && forall i :: 0 <= i < |vs| ==> r[i] == FromExternal(vs[i])
  {
    seq(|vs|, i requires 0 <= i < |vs| => FromExternal(vs[i]))
  }

  /** The numbers of a DIMACS clause line: at least one, the last one 0, no 0 before it. */
  predicate ClauseValues(vs: seq<int>)
  {
    |vs| > 0 && vs[|vs| - 1] == 0 && forall i :: 0 <= i < |vs| - 1 ==> vs[i] != 0
  }

  /**
   * `parse_dimacs_clause`: the whitespace-separated tokens are `i32`s, the
   * last one is 0, and the others become literals, in order. `None` stands
   * for the panics: a token that is not an `i32`, an empty line, a last
   * token other than 0, and a 0 before the end (which `Var::from_external`
   * cannot map to a variable).
   */
  function ParseDimacsClause(s: string): (r: Option<seq<Lit>>)
    ensures r.Some? <==> ParseTokens(SplitWhitespace(s)).Some? && ClauseValues(ParseTokens(SplitWhitespace(s)).value)
    ensures r.Some? ==>
      |SplitWhitespace(s)| == |r.value| + 1 && r.value == FromExternals(ParseTokens(SplitWhitespace(s)).value[..|r.value|])
  {
    var ts := SplitWhitespace(s);
    var parsed := ParseTokens(ts);
    if parsed.None? || !ClauseValues(parsed.value) then None
    else
      var lits := parsed.value[..|parsed.value| - 1];
      Some(FromExternals(lits))
  }

  /** The clause line a DIMACS writer produces for `lits`: each literal and a space, then `0`. */
  function ClauseLine(lits: seq<Lit>): string
  {
    Spaced(ClauseTokens(lits)) + "0"
  }

  function ClauseTokens(lits: seq<Lit>): (ts: seq<string>)
    ensures |ts| == |lits| && forall i :: 0 <= i < |lits| ==> ts[i] == IntToString(ToExternal(lits[i]))
  {
    seq(|lits|, i requires 0 <= i < |lits| => IntToString(ToExternal(lits[i])))
  }

  lemma IntToStringToken(i: int)
    ensures |IntToString(i)| > 0 && NoWhitespace(IntToString(i))
  {
    var d := NatToString(if i < 0 then -i else i);
    assert AllDigits(d);
    assert forall j :: 0 <= j < |d| ==> IsDigit(d[j]);
  }

  lemma {:induction false} ParseTokensOfStrings(ts: seq<string>, vs: seq<int>)
    requires |ts| == |vs|
    requires forall i :: 0 <= i < |ts| ==> ParseSigned(ts[i], I32Min, I32Max + 1) == Some(vs[i])
    ensures ParseTokens(ts) == Some(vs)
  {
    if |ts| > 0 {
      var hd := ParseSigned(ts[0], I32Min, I32Max + 1);
      assert hd == Some(vs[0]);
      forall i | 0 <= i < |ts| - 1
        ensures ParseSigned(ts[1..][i], I32Min, I32Max + 1) == Some(vs[1..][i])
      {
        assert ts[1..][i] == ts[i + 1] && vs[1..][i] == vs[i + 1];
      }
      ParseTokensOfStrings(ts[1..], vs[1..]);
      assert vs == [vs[0]] + vs[1..];
    }
  }

  /** The `Display` text of each number. */
  function IntTokens(vs: seq<int>): (ts: seq<string>)
    ensures |ts| == |vs| && forall i :: 0 <= i < |vs| ==> ts[i] == IntToString(vs[i])
  {
    seq(|vs|, i requires 0 <= i < |vs| => IntToString(vs[i]))
  }

  /** A line of `i32`s, each followed by a space, then `0`, tokenizes and parses back to the numbers and the 0. */
  lemma TokensRoundTrip(vs: seq<int>)
    requires forall i :: 0 <= i < |vs| ==> I32Min <= vs[i] <= I32Max
    ensures ParseTokens(SplitWhitespace(Spaced(IntTokens(vs)) + "0")) == Some(vs + [0])
  {
    var ts := IntTokens(vs);
    forall i | 0 <= i < |ts|
      ensures |ts[i]| > 0 && NoWhitespace(ts[i])
      ensures ParseSigned(ts[i], I32Min, I32Max + 1) == Some(vs[i])
    {
      IntToStringToken(vs[i]);
      ParseSignedRoundTrip(vs[i], I32Min, I32Max + 1);
    }
    SplitSpaced(ts, "0");
    assert SplitFrom("0", "") == ["0"] by {
      assert "0"[1..] == "";
      assert "" + ['0'] == "0";
    }
    assert ParseSigned("0", I32Min, I32Max + 1) == Some(0) by {
      assert DigitsValue("0") == 0;
    }
    ParseTokensOfStrings(ts + ["0"], vs + [0]);
  }

  lemma ExternalsRoundTrip(lits: seq<Lit>, es: seq<int>)
    requires forall i :: 0 <= i < |lits| ==> VarToExternal(Var(lits[i])) <= I32Max
    requires |es| == |lits| && forall i :: 0 <= i < |lits| ==> es[i] == ToExternal(lits[i])
    ensures forall i :: 0 <= i < |es| ==> es[i] != 0 && I32Min <= es[i] <= I32Max
    ensures FromExternals(es) == lits
  {
    var r := FromExternals(es);
    forall i | 0 <= i < |lits|
      ensures r[i] == lits[i]
    {
      ExternalRoundTrip(lits[i]);
    }
  }

  /** Reading back a written clause line gives the clause. */
  lemma ParseClauseLine(lits: seq<Lit>)
    requires forall i :: 0 <= i < |lits| ==> VarToExternal(Var(lits[i])) <= I32Max
    ensures ParseDimacsClause(ClauseLine(lits)) == Some(lits)
  {
    var es := seq(|lits|, i requires 0 <= i < |lits| => ToExternal(lits[i]));
    assert ClauseTokens(lits) == IntTokens(es);
    ExternalsRoundTrip(lits, es);
    TokensRoundTrip(es);
    assert (es + [0])[..|es|] == es;
  }
}
