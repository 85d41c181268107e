/**
 * The bit, text and interval helpers of the interval-partitioning example:
 * fixed-width binary encodings of numbers, DIMACS clause lines, the
 * power-of-two test and the grouping of a sorted list of numbers into runs.
 */
module PartUtils {
  import opened Wrappers
  import opened Text
  import opened BitVec
  import opened SatUtils
  import opened SatLit

  // ---------- num2bits / bits2num ----------

  /**
   * The vector `num2bits(x, n)` returns: most significant bit first, and only
   * the lowest 32 bits of `x` are ever written; positions further left stay
   * `false`.
   */
  function Num2BitsOf(x: nat, n: nat): (bits: seq<bool>)
    ensures |bits| == n
  {
    seq(n, k requires 0 <= k < n => n - 1 - k < 32 && Bit(x, n - 1 - k))
  }

  /** `num2bits`: the shift `1 << n` and the assertion demand `n < 64` and `x < 2^n`. */
  method Num2Bits(x: nat, n: nat) returns (bits: seq<bool>)
    requires n < 64 && x < Pow2(n)
    ensures bits == Num2BitsOf(x, n)
  {
    bits := seq(n, _ => false);
    var m := if n < 32 then n else 32;
    for i := 0 to m
      invariant |bits| == n
      invariant forall k :: 0 <= k < n ==> bits[k] == (n - 1 - k < i && Bit(x, n - 1 - k))
    {
      bits := bits[n - i - 1 := Bit(x, i)];
    }
  }

  /** All the bits of `x` below position `n`, most significant first. */
  function LowBits(x: nat, n: nat): (bits: seq<bool>)
    ensures |bits| == n
  {
    seq(n, k requires 0 <= k < n => Bit(x, n - 1 - k))
  }

  lemma {:induction false} NumSnoc(s: seq<bool>, b: bool)
    ensures Num(s + [b]) == 2 * Num(s) + (if b then 1 else 0)
  {
    if |s| > 0 {
      assert (s + [b])[0] == s[0];
      assert (s + [b])[1..] == s[1..] + [b];
      NumSnoc(s[1..], b);
    } else {
      assert s + [b] == [b];
    }
  }

  lemma LowBitsSnoc(x: nat, n: nat)
    requires n > 0
    ensures LowBits(x, n) == LowBits(x / 2, n - 1) + [x % 2 == 1]
  {
    var l, r := LowBits(x, n), LowBits(x / 2, n - 1) + [x % 2 == 1];
    forall k | 0 <= k < n
      ensures l[k] == r[k]
    {
      if k < n - 1 {
        assert Bit(x, n - 1 - k) == Bit(x / 2, n - 2 - k);
      }
    }
  }

  /** The low `n` bits of a number below `2^n` read back as the number. */
  lemma {:induction false} LowBitsValue(x: nat, n: nat)
    requires x < Pow2(n)
    ensures Num(LowBits(x, n)) == x
  {
    if n > 0 {
      LowBitsSnoc(x, n);
      LowBitsValue(x / 2, n - 1);
      NumSnoc(LowBits(x / 2, n - 1), x % 2 == 1);
    }
  }

  /** Bits at and above position `i` of a number below `2^i` are clear. */
  lemma {:induction false} BitAbove(x: nat, i: nat)
    requires x < Pow2(i)
    ensures !Bit(x, i)
  {
    if i > 0 {
      BitAbove(x / 2, i - 1);
    }
  }

  lemma {:induction false} BitAboveFrom(x: nat, j: nat, i: nat)
    requires x < Pow2(j) && j <= i
    ensures !Bit(x, i)
    decreases i - j
  {
    if j < i {
      assert Pow2(j) <= Pow2(j + 1);
      BitAboveFrom(x, j + 1, i);
    } else {
      BitAbove(x, i);
    }
  }

  /**
   * `num2bits` loses nothing as long as the number fits in 32 bits: then
   * the vector reads back as `x` under the most-significant-first order.
   */
  lemma Num2BitsValue(x: nat, n: nat)
    requires x < Pow2(n) && (n <= 32 || x < Pow2(32))
    ensures Num(Num2BitsOf(x, n)) == x
  {
    var a, b := Num2BitsOf(x, n), LowBits(x, n);
    forall k | 0 <= k < n
      ensures a[k] == b[k]
    {
      if n - 1 - k >= 32 {
        BitAboveFrom(x, 32, n - 1 - k);
      }
    }
    assert a == b;
    LowBitsValue(x, n);
  }

  /** From 33 bits up, a bit at position 32 or higher is not written. */
  lemma Num2BitsDropsHighBits()
    ensures Pow2(32) < Pow2(33)
    ensures Num(Num2BitsOf(Pow2(32), 33)) == 0
  {
    var bits := Num2BitsOf(Pow2(32), 33);
    assert bits[0] == false;
    forall k | 1 <= k < 33
      ensures !bits[k]
    {
      ZeroBitsBelow(Pow2(32), 32, 32 - k);
    }
    ZeroNum(bits);
  }

  /** `2^n` has no set bit below position `n`. */
  lemma {:induction false} ZeroBitsBelow(x: nat, n: nat, i: nat)
    requires x == Pow2(n) && i < n
    ensures !Bit(x, i)
  {
    if i > 0 {
      ZeroBitsBelow(x / 2, n - 1, i - 1);
    }
  }

  lemma {:induction false} ZeroNum(bits: seq<bool>)
    requires forall k :: 0 <= k < |bits| ==> !bits[k]
    ensures Num(bits) == 0
  {
    if |bits| > 0 {
      ZeroNum(bits[1..]);
    }
  }

  /**
   * `bits2num`: the bits, read from the last (least significant) one
   * upwards, set bit `shift` of the `u32` result. Setting a bit above every
   * bit set so far, the `|=` adds `2^shift`.
   */
  method Bits2Num(bits: seq<bool>) returns (result: nat)
    requires |bits| <= 32
    ensures result == Num(bits) && result < Pow2(32)
  {
    result := 0;
    var shift := 0;
    var k := |bits|;
    while k > 0
      invariant 0 <= k <= |bits| && shift == |bits| - k
      invariant result == Num(bits[k..])
    {
      k := k - 1;
      assert bits[k..][1..] == bits[k + 1..];
      if bits[k] {
        result := result + Pow2(shift);
      }
      shift := shift + 1;
    }
    assert bits[0..] == bits;
    NumBound(bits);
    Pow2Mono(|bits|, 32);
  }

  lemma {:induction false} Pow2Mono(a: nat, b: nat)
    requires a <= b
    ensures Pow2(a) <= Pow2(b)
    decreases b - a
  {
    if a < b {
      Pow2Mono(a + 1, b);
    }
  }

  /** Writing a number of at most 32 bits and reading it back gives the number. */
  lemma Bits2NumOfNum2Bits(x: nat, n: nat)
    requires n <= 32 && x < Pow2(n)
    ensures Num(Num2BitsOf(x, n)) == x
  {
    Num2BitsValue(x, n);
  }

  /** Reading a vector of at most 32 bits and writing it back gives the vector. */
  lemma {:induction false} Num2BitsOfBits2Num(bits: seq<bool>)
    requires |bits| <= 32
    ensures Num2BitsOf(Num(bits), |bits|) == bits
  {
    LowBitsOfNum(bits);
    var a, b := Num2BitsOf(Num(bits), |bits|), LowBits(Num(bits), |bits|);
    assert a == b;
  }

  lemma {:induction false} LowBitsOfNum(bits: seq<bool>)
    ensures LowBits(Num(bits), |bits|) == bits
  {
    var n := |bits|;
    if n > 0 {
      var s, b := bits[..n - 1], bits[n - 1];
      assert bits == s + [b];
      NumSnoc(s, b);
      var x := Num(bits);
      assert x / 2 == Num(s) && (x % 2 == 1) == b;
      LowBitsSnoc(x, n);
      LowBitsOfNum(s);
    }
  }

  // ---------- bits2str ----------

  /** `bits2str`: one character per bit, `'1'` for set and `'0'` for clear. */
  function BitsToStr(bits: seq<bool>): (s: string)
    ensures |s| == |bits|
    ensures forall i :: 0 <= i < |bits| ==> (s[i] == '1' <==> bits[i]) && s[i] in "01"
  {
    seq(|bits|, i requires 0 <= i < |bits| => if bits[i] then '1' else '0')
  }

  /** Different vectors give different strings. */
  lemma BitsToStrInjective(a: seq<bool>, b: seq<bool>)
    requires BitsToStr(a) == BitsToStr(b)
    ensures a == b
  {
    assert |a| == |b|;
    forall i | 0 <= i < |a|
      ensures a[i] == b[i]
    {
      assert BitsToStr(a)[i] == BitsToStr(b)[i];
    }
  }

  // ---------- to_dimacs ----------

  lemma {:induction false} SpacedSnoc(ts: seq<string>, t: string)
    ensures Spaced(ts + [t]) == Spaced(ts) + t + " "
  {
    if |ts| > 0 {
      assert (ts + [t])[0] == ts[0] && (ts + [t])[1..] == ts[1..] + [t];
      SpacedSnoc(ts[1..], t);
    } else {
      assert ts + [t] == [t];
    }
  }

  /**
   * `to_dimacs`: every literal followed by a space, then the closing `0`;
   * `SatUtils.TokensRoundTrip` reads such a line back.
   */
  method ToDimacs(clause: seq<int>) returns (s: string)
    ensures s == Spaced(IntTokens(clause)) + "0"
  {
    s := "";
    for k := 0 to |clause|
      invariant s == Spaced(IntTokens(clause[..k]))
    {
      assert IntTokens(clause[..k + 1]) == IntTokens(clause[..k]) + [IntToString(clause[k])];
      SpacedSnoc(IntTokens(clause[..k]), IntToString(clause[k]));
      s := s + IntToString(clause[k]) + " ";
    }
    assert clause[..|clause|] == clause;
    s := s + "0";
  }

  // ---------- is_power_of_two ----------

  /** `a & b` on non-negative integers. */
  function AndNat(a: nat, b: nat): nat
  {
    if a == 0 || b == 0 then 0
    else 2 * AndNat(a / 2, b / 2) + (if a % 2 == 1 && b % 2 == 1 then 1 else 0)
  }

  lemma {:induction false} AndSelf(a: nat)
    ensures AndNat(a, a) == a
  {
    if a > 0 {
      AndSelf(a / 2);
    }
  }

  /** An even number above 1 is a power of two exactly when its half is. */
  lemma PowerHalf(x: nat)
    requires x >= 2 && x % 2 == 0
    ensures (exists k: nat :: Pow2(k) == x) <==> exists k: nat :: Pow2(k) == x / 2
  {
    if exists k: nat :: Pow2(k) == x / 2 {
      var k: nat :| Pow2(k) == x / 2;
      assert Pow2(k + 1) == x;
    }
    if exists k: nat :: Pow2(k) == x {
      var k: nat :| Pow2(k) == x;
      assert k > 0;
      var h: nat := k - 1;
      assert Pow2(h) == x / 2;
    }
  }

  /** An odd number above 1 is not a power of two. */
  lemma PowerOdd(x: nat)
    requires x >= 3 && x % 2 == 1
    ensures forall k: nat :: Pow2(k) != x
  {
    forall k: nat
      ensures Pow2(k) != x
    {
      if k > 0 {
        assert Pow2(k) == 2 * Pow2(k - 1);
      }
    }
  }

  lemma {:induction false} AndPredecessor(x: nat)
    requires x >= 1
    ensures AndNat(x, x - 1) == 0 <==> exists k: nat :: Pow2(k) == x
  {
    if x == 1 {
      assert Pow2(0) == 1;
    } else if x % 2 == 0 {
      AndPredecessor(x / 2);
      assert AndNat(x, x - 1) == 2 * AndNat(x / 2, x / 2 - 1);
      PowerHalf(x);
    } else {
      AndSelf(x / 2);
      assert AndNat(x, x - 1) == 2 * AndNat(x / 2, x / 2);
      PowerOdd(x);
    }
  }

  /**
   * `is_power_of_two`: `x & (x - 1) == 0`. The subtraction demands `x >= 1`;
   * the test then holds exactly for the powers of two.
   */
  function IsPowerOfTwo(x: nat): (r: bool)
    requires x >= 1
    ensures r <==> exists k: nat :: Pow2(k) == x
  {
    AndPredecessor(x);
    AndNat(x, x - 1) == 0
  }

  // ---------- extract_intervals ----------

  /** A run of consecutive numbers (three or more) or a single number. */
  datatype Interval = Single(value: nat) | Range(low: nat, high: nat)

  /** The numbers an interval stands for, in increasing order. */
  function Expand(iv: Interval): seq<nat>
  {
    match iv
    case Single(v) => [v]
    case Range(l, h) => if l <= h then seq(h - l + 1, k => l + k) else []
  }

  function Flatten(ivs: seq<Interval>): seq<nat>
  {
    if |ivs| == 0 then [] else Expand(ivs[0]) + Flatten(ivs[1..])
  }

  /** The last index of the run of consecutive numbers that starts at `i`. */
  function RunEnd(data: seq<nat>, i: nat): (j: nat)
    requires i < |data|
    ensures i <= j < |data|
    decreases |data| - i
  {
    if i < |data| - 1 && data[i] + 1 == data[i + 1] then RunEnd(data, i + 1) else i
  }

  /** What one run from `low` to `high` contributes. */
  function RunIntervals(low: nat, high: nat): seq<Interval>
  {
    if high >= low + 2 then [Range(low, high)]
    else if high == low + 1 then [Single(low), Single(high)]
    else [Single(low)]
  }

  /** The intervals of `data[i..]`, one run after another. */
  function ExtractFrom(data: seq<nat>, i: nat): seq<Interval>
    requires i <= |data|
    decreases |data| - i
  {
    if i == |data| then []
    else RunIntervals(data[i], data[RunEnd(data, i)]) + ExtractFrom(data, RunEnd(data, i) + 1)
  }

  lemma ExtractStep(data: seq<nat>, i: nat)
    requires i < |data|
    ensures ExtractFrom(data, i) == RunIntervals(data[i], data[RunEnd(data, i)]) + ExtractFrom(data, RunEnd(data, i) + 1)
  {
  }

  lemma FlattenStep(data: seq<nat>, i: nat)
    requires i < |data|
    ensures Flatten(ExtractFrom(data, i)) == Flatten(RunIntervals(data[i], data[RunEnd(data, i)])) + Flatten(ExtractFrom(data, RunEnd(data, i) + 1))
  {
    var run, rest := RunIntervals(data[i], data[RunEnd(data, i)]), ExtractFrom(data, RunEnd(data, i) + 1);
    ExtractStep(data, i);
    FlattenAppend(run, rest);
  }

  /** `extract_intervals`: a cursor walks the data run by run. */
  method ExtractIntervals(data: seq<nat>) returns (result: seq<Interval>)
    ensures result == ExtractFrom(data, 0)
  {
    var n := |data|;
    result := [];
    var i := 0;
    while i < n
      invariant 0 <= i <= n
      invariant result + ExtractFrom(data, i) == ExtractFrom(data, 0)
      decreases n - i
    {
      var start := i;
      var low := data[i];
      while i < n - 1 && data[i] + 1 == data[i + 1]
        invariant start <= i < n
        invariant RunEnd(data, i) == RunEnd(data, start)
      {
        i := i + 1;
      }
      assert RunEnd(data, i) == i;
      var high := data[i];
      var run := RunIntervals(low, high);
      ExtractAdvance(data, start, result);
      result := result + run;
      i := i + 1;
    }
  }

  /** Moving the cursor past one run moves that run's intervals to the result. */
  lemma ExtractAdvance(data: seq<nat>, start: nat, result: seq<Interval>)
    requires start < |data|
    ensures (result + RunIntervals(data[start], data[RunEnd(data, start)])) + ExtractFrom(data, RunEnd(data, start) + 1)
         == result + ExtractFrom(data, start)
  {
    ExtractStep(data, start);
  }

  /** Along a run, each number is one more than the one before. */
  lemma {:induction false} RunValues(data: seq<nat>, i: nat)
    requires i < |data|
    ensures data[RunEnd(data, i)] == data[i] + (RunEnd(data, i) - i)
    ensures forall k :: i <= k <= RunEnd(data, i) ==> data[k] == data[i] + (k - i)
    decreases |data| - i
  {
    if i < |data| - 1 && data[i] + 1 == data[i + 1] {
      RunValues(data, i + 1);
    }
  }

  lemma {:induction false} FlattenAppend(a: seq<Interval>, b: seq<Interval>)
    ensures Flatten(a + b) == Flatten(a) + Flatten(b)
  {
    if |a| > 0 {
      assert (a + b)[0] == a[0] && (a + b)[1..] == a[1..] + b;
      FlattenAppend(a[1..], b);
    } else {
      assert a + b == b;
    }
  }

  /** The intervals of `data[i..]` list exactly the numbers of `data[i..]`, in order. */
  lemma {:induction false} ExtractCovers(data: seq<nat>, i: nat)
    requires i <= |data|
    ensures Flatten(ExtractFrom(data, i)) == data[i..]
    decreases |data| - i
  {
    if i < |data| {
      ExtractCovers(data, RunEnd(data, i) + 1);
      CoversStep(data, i);
    } else {
      assert data[i..] == [];
    }
  }

  lemma CoversStep(data: seq<nat>, i: nat)
    requires i < |data|
    requires Flatten(ExtractFrom(data, RunEnd(data, i) + 1)) == data[RunEnd(data, i) + 1..]
    ensures Flatten(ExtractFrom(data, i)) == data[i..]
  {
    FlattenStep(data, i);
    RunPiece(data, i);
    SliceSplit(data, i, RunEnd(data, i) + 1);
  }

  lemma SliceSplit(data: seq<nat>, i: nat, j: nat)
    requires i <= j <= |data|
    ensures data[i..] == data[i..j] + data[j..]
  {
  }

  /** The intervals of one run stand for the numbers of that run. */
  lemma RunPiece(data: seq<nat>, i: nat)
    requires i < |data|
    ensures Flatten(RunIntervals(data[i], data[RunEnd(data, i)])) == data[i..RunEnd(data, i) + 1]
  {
    RunSlice(data, i);
    RunFlatten(data[i], data[RunEnd(data, i)]);
  }

  lemma RunSlice(data: seq<nat>, i: nat)
    requires i < |data|
    ensures data[RunEnd(data, i)] >= data[i]
    ensures data[i..RunEnd(data, i) + 1] == Count(data[i], data[RunEnd(data, i)] - data[i] + 1)
  {
    RunValues(data, i);
  }

  /** `n` consecutive numbers from `low`. */
  function Count(low: nat, n: nat): (r: seq<nat>)
    ensures |r| == n && forall k :: 0 <= k < n ==> r[k] == low + k
  {
    seq(n, k requires 0 <= k < n => low + k)
  }

  /** One run's intervals stand for the numbers from `low` to `high`. */
  lemma RunFlatten(low: nat, high: nat)
    requires low <= high
    ensures Flatten(RunIntervals(low, high)) == Count(low, high - low + 1)
  {
    var run := RunIntervals(low, high);
    if high >= low + 2 {
      assert Flatten(run) == Expand(run[0]) + Flatten(run[1..]);
    } else if high == low + 1 {
      assert Flatten(run) == [low] + Flatten(run[1..]);
      assert Flatten(run[1..]) == [high] + Flatten(run[2..]);
    } else {
      assert Flatten(run) == [low] + Flatten(run[1..]);
    }
  }

  /** Only runs of three or more numbers become a `Range`; shorter runs are listed singly. */
  lemma {:induction false} ExtractRanges(data: seq<nat>, i: nat)
    requires i <= |data|
    ensures forall iv :: iv in ExtractFrom(data, i) && iv.Range? ==> iv.low + 2 <= iv.high
    decreases |data| - i
  {
    if i < |data| {
      ExtractRanges(data, RunEnd(data, i) + 1);
    }
  }

  /** Reading back the intervals of the whole input gives the input. */
  lemma ExtractIntervalsCovers(data: seq<nat>)
    ensures Flatten(ExtractFrom(data, 0)) == data
    ensures forall iv :: iv in ExtractFrom(data, 0) && iv.Range? ==> iv.low + 2 <= iv.high
  {
    ExtractCovers(data, 0);
    ExtractRanges(data, 0);
    assert data[0..] == data;
  }
}
