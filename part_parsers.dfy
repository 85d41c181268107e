/**
 * The command-line parsers of the interval-partitioning tools: lists of
 * input variables written as comma-separated numbers and ranges
 * (`1-4,7,9-10`), and integers that may be written as a power (`2^20`).
 * Where the source unwraps a failed parse (a panic), the model returns `None`.
 */
module PartParsers {
  import opened Wrappers
  import opened Text
  import opened BitVec
  import opened SatUtils

  /** `u32::MAX + 1` and `usize::MAX + 1` on a 64-bit target. */
  const U32Bound: nat := 0x1_0000_0000
  const USizeBound: nat := 0x1_0000_0000_0000_0000

  // ---------- parse_interval ----------

  /**
   * `parse_interval`: text with a `-` is split at the first one into a start
   * and an end, text without one is a single number; each number is parsed
   * as an unsigned integer below `bound`.
   */
  function ParseInterval(s: string, bound: nat): (r: Option<(nat, nat)>)
    ensures r.Some? ==> r.value.0 < bound && r.value.1 < bound
    ensures r.Some? && '-' !in s ==> r.value.0 == r.value.1 && ParseUnsigned(s, bound) == Some(r.value.0)
  {
    var parts := SplitOnce(s, '-');
    if |parts| == 2 then
      match (ParseUnsigned(parts[0], bound), ParseUnsigned(parts[1], bound))
      case (Some(a), Some(b)) => Some((a, b))
      case _ => None
    else
      match ParseUnsigned(s, bound)
      case Some(v) => Some((v, v))
      case None => None
  }

  /** The text of an interval: a single number, or start and end joined by `-`. */
  function ShowInterval(a: nat, b: nat): (s: string)
    ensures ',' !in s
  {
    if a == b then NatToString(a) else NatToString(a) + "-" + NatToString(b)
  }

  lemma DigitsNotIn(s: string, c: char)
    requires AllDigits(s) && !IsDigit(c)
    ensures c !in s
  {
  }

  /** Parsing the text of an interval gives it back. */
  lemma IntervalRoundTrip(a: nat, b: nat, bound: nat)
    requires a < bound && b < bound
    ensures ParseInterval(ShowInterval(a, b), bound) == Some((a, b))
  {
    DigitsNotIn(NatToString(a), '-');
    ParseUnsignedRoundTrip(a, bound);
    if a != b {
      JoinedSplit(NatToString(a), NatToString(b), '-');
      assert NatToString(a) + "-" + NatToString(b) == NatToString(a) + ['-'] + NatToString(b);
      ParseUnsignedRoundTrip(b, bound);
    }
  }

  // ---------- parse_input_variables ----------

  /** The numbers of `start..=end`, in order; empty when `start > end`. */
  function RangeValues(a: nat, b: nat): (r: seq<nat>)
    ensures |r| == if a <= b then b - a + 1 else 0
    ensures forall i :: 0 <= i < |r| ==> r[i] == a + i
  {
    if a <= b then seq(b - a + 1, k => a + k) else []
  }

  /** The variables of the comma-separated parts, in order; `None` as soon as one part does not parse. */
  function VariablesOf(parts: seq<string>): Option<seq<nat>>
  {
    if |parts| == 0 then Some([])
    else
      match (VariablesOf(parts[..|parts| - 1]), ParseInterval(parts[|parts| - 1], U32Bound))
      case (Some(vs), Some((a, b))) => Some(vs + RangeValues(a, b))
      case _ => None
  }

  lemma {:induction false} FailureStays(parts: seq<string>, i: nat)
    requires i <= |parts| && VariablesOf(parts[..i]).None?
    ensures VariablesOf(parts).None?
    decreases |parts| - i
  {
    if i < |parts| {
      assert parts[..i + 1][..i] == parts[..i];
      FailureStays(parts, i + 1);
    } else {
      assert parts[..i] == parts;
    }
  }

  lemma VariablesStep(parts: seq<string>, i: nat)
    requires i < |parts|
    ensures VariablesOf(parts[..i + 1]) ==
      match (VariablesOf(parts[..i]), ParseInterval(parts[i], U32Bound))
      case (Some(vs), Some((a, b))) => Some(vs + RangeValues(a, b))
      case _ => None
  {
    assert parts[..i + 1][..i] == parts[..i];
  }

  /**
   * `parse_input_variables`: every comma-separated part is an interval of
   * `u32` values, and the result lists their values part after part.
   */
  method ParseInputVariables(input: string) returns (r: Option<seq<nat>>)
    ensures r == VariablesOf(Split(input, ','))
    ensures r.Some? ==> forall i :: 0 <= i < |r.value| ==> r.value[i] < U32Bound
  {
    var parts := Split(input, ',');
    var result: seq<nat> := [];
    for i := 0 to |parts|
      invariant VariablesOf(parts[..i]) == Some(result)
      invariant forall k :: 0 <= k < |result| ==> result[k] < U32Bound
    {
      var iv := ParseInterval(parts[i], U32Bound);
      if iv.None? {
        VariablesStep(parts, i);
        FailureStays(parts, i + 1);
        return None;
      }
      var (a, b) := iv.value;
      VariablesStep(parts, i);
      result := result + RangeValues(a, b);
    }
    assert parts[..|parts|] == parts;
    r := Some(result);
  }

  /** The values of a list of intervals, interval after interval. */
  function IntervalsValues(ivs: seq<(nat, nat)>): seq<nat>
  {
    if |ivs| == 0 then [] else IntervalsValues(ivs[..|ivs| - 1]) + RangeValues(ivs[|ivs| - 1].0, ivs[|ivs| - 1].1)
  }

  lemma {:induction false} VariablesOfShown(ivs: seq<(nat, nat)>)
    requires forall i :: 0 <= i < |ivs| ==> ivs[i].0 < U32Bound && ivs[i].1 < U32Bound
    ensures VariablesOf(seq(|ivs|, i requires 0 <= i < |ivs| => ShowInterval(ivs[i].0, ivs[i].1))) == Some(IntervalsValues(ivs))
  {
    var parts := seq(|ivs|, i requires 0 <= i < |ivs| => ShowInterval(ivs[i].0, ivs[i].1));
    if |ivs| > 0 {
      var init := ivs[..|ivs| - 1];
      assert parts[..|parts| - 1] == seq(|init|, i requires 0 <= i < |init| => ShowInterval(init[i].0, init[i].1));
      VariablesOfShown(init);
      IntervalRoundTrip(ivs[|ivs| - 1].0, ivs[|ivs| - 1].1, U32Bound);
    }
  }

  /** A comma-separated list of intervals parses to the values of the intervals. */
  lemma InputVariablesRoundTrip(ivs: seq<(nat, nat)>)
    requires |ivs| > 0
    requires forall i :: 0 <= i < |ivs| ==> ivs[i].0 < U32Bound && ivs[i].1 < U32Bound
    ensures VariablesOf(Split(Joined(seq(|ivs|, i requires 0 <= i < |ivs| => ShowInterval(ivs[i].0, ivs[i].1)), ','), ','))
      == Some(IntervalsValues(ivs))
  {
    var parts := seq(|ivs|, i requires 0 <= i < |ivs| => ShowInterval(ivs[i].0, ivs[i].1));
    SplitJoined(parts, ',');
    VariablesOfShown(ivs);
  }

  // ---------- parse_integer_maybe_power ----------

  /**
   * `parse_integer_maybe_power`: `base^power` with a `usize` base and a
   * `u32` power, or a plain `usize`; a power that overflows `usize` is a
   * failure, as `pow` panics on overflow.
   */
  function ParseIntegerMaybePower(s: string): (r: Option<nat>)
    ensures r.Some? ==> r.value < USizeBound
  {
    var parts := SplitOnce(s, '^');
    if |parts| == 2 then
      match (ParseUnsigned(parts[0], USizeBound), ParseUnsigned(parts[1], U32Bound))
      case (Some(b), Some(p)) =>
        PowerNonNegative(b, p);
        if Power(b, p) < USizeBound then Some(Power(b, p) as nat) else None
      case _ => None
    else
      ParseUnsigned(s, USizeBound)
  }

  lemma {:induction false} PowerNonNegative(b: nat, p: nat)
    ensures Power(b, p) >= 0
  {
    if p > 0 {
      PowerNonNegative(b, p - 1);
    }
  }

  /** A plain number parses to itself. */
  lemma PlainRoundTrip(n: nat)
    requires n < USizeBound
    ensures ParseIntegerMaybePower(NatToString(n)) == Some(n)
  {
    DigitsNotIn(NatToString(n), '^');
    ParseUnsignedRoundTrip(n, USizeBound);
  }

  /** `b^p` parses to the power when it fits in a `usize`. */
  lemma PowerRoundTrip(b: nat, p: nat)
    requires b < USizeBound && p < U32Bound && 0 <= Power(b, p) < USizeBound
    ensures ParseIntegerMaybePower(NatToString(b) + "^" + NatToString(p)) == Some(Power(b, p) as nat)
  {
    DigitsNotIn(NatToString(b), '^');
    JoinedSplit(NatToString(b), NatToString(p), '^');
    assert NatToString(b) + "^" + NatToString(p) == NatToString(b) + ['^'] + NatToString(p);
    ParseUnsignedRoundTrip(b, USizeBound);
    ParseUnsignedRoundTrip(p, U32Bound);
  }

  /** `2^20`, the usual way of writing an interval size. */
  lemma PowerExample()
    ensures ParseIntegerMaybePower("2^20") == Some(0x10_0000)
  {
    assert NatToString(2) == "2";
    assert NatToString(20) == "20";
    assert Power(2, 20) == 0x10_0000 by {
      assert Power(2, 10) == 1024;
    }
    PowerRoundTrip(2, 20);
    assert NatToString(2) + "^" + NatToString(20) == "2^20";
  }
}
