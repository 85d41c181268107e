/**
 * Decimal rendering and parsing of integers and whitespace/separator
 * splitting, as done by Rust's `Display` for integers, `str::parse` for
 * integer types, `split_whitespace`, `split` and `splitn(2, _)`.
 */
module Text {
  import opened Wrappers

  predicate IsDigit(c: char) { '0' <= c <= '9' }

  predicate AllDigits(s: string) { forall i :: 0 <= i < |s| ==> IsDigit(s[i]) }

  /**
   * `char::is_whitespace`: the Unicode `White_Space` characters, that is
   * U+0009 to U+000D, the space, U+0085, U+00A0, U+1680, U+2000 to U+200A,
   * U+2028, U+2029, U+202F, U+205F and U+3000.
   */
  predicate IsWhitespace(c: char)
  {
    || '\t' <= c <= '\r' || c == ' ' || c == '\U{85}' || c == '\U{A0}' || c == '\U{1680}'
    || '\U{2000}' <= c <= '\U{200A}' || c == '\U{2028}' || c == '\U{2029}' || c == '\U{202F}'
    || c == '\U{205F}' || c == '\U{3000}'
  }

  predicate NoWhitespace(s: string) { forall i :: 0 <= i < |s| ==> !IsWhitespace(s[i]) }

  function DigitChar(d: nat): (c: char)
    requires d < 10
    ensures IsDigit(c) && c as int - '0' as int == d
  {
    ('0' as int + d) as char
  }

  /** The value of a string of decimal digits, most significant first. */
  function DigitsValue(s: string): nat
    requires AllDigits(s)
  {
    if |s| == 0 then 0 else DigitsValue(s[..|s| - 1]) * 10 + (s[|s| - 1] as int - '0' as int)
  }

  /** The shortest decimal rendering of `n`. */
  function NatToString(n: nat): (s: string)
    ensures |s| > 0 && AllDigits(s)
  {
    if n < 10 then [DigitChar(n)] else NatToString(n / 10) + [DigitChar(n % 10)]
  }

  /** `Display` of a signed integer: a minus sign, then the digits of the magnitude. */
  function IntToString(i: int): string
  {
    if i < 0 then "-" + NatToString(-i) else NatToString(i)
  }

  lemma {:induction false} NatToStringValue(n: nat)
    ensures DigitsValue(NatToString(n)) == n
  {
    if n >= 10 {
      var s := NatToString(n);
      assert s[..|s| - 1] == NatToString(n / 10);
      NatToStringValue(n / 10);
    }
  }

  /**
   * `str::parse` for an unsigned integer type whose values are below `bound`:
   * an optional `+`, then at least one digit, and nothing else.
   */
  function ParseUnsigned(s: string, bound: nat): (r: Option<nat>)
    ensures r.Some? ==> r.value < bound
  {
    var t := if |s| > 0 && s[0] == '+' then s[1..] else s;
    if |t| == 0 || !AllDigits(t) then None
    else if DigitsValue(t) < bound then Some(DigitsValue(t))
    else None
  }

  /**
   * `str::parse` for a signed integer type with values in `lo..hi`: an optional
   * `+` or `-`, then at least one digit, and nothing else.
   */
  function ParseSigned(s: string, lo: int, hi: int): (r: Option<int>)
    ensures r.Some? ==> lo <= r.value < hi
  {
    var neg := |s| > 0 && s[0] == '-';
    var t := if |s| > 0 && (s[0] == '+' || s[0] == '-') then s[1..] else s;
    if |t| == 0 || !AllDigits(t) then None
    else
      var v: int := if neg then -(DigitsValue(t) as int) else DigitsValue(t);
      if lo <= v < hi then Some(v) else None
  }

  lemma ParseUnsignedRoundTrip(n: nat, bound: nat)
    requires n < bound
    ensures ParseUnsigned(NatToString(n), bound) == Some(n)
  {
    NatToStringValue(n);
  }

  lemma ParseSignedRoundTrip(i: int, lo: int, hi: int)
    requires lo <= i < hi
    ensures ParseSigned(IntToString(i), lo, hi) == Some(i)
  {
    var s := IntToString(i);
    if i < 0 {
      var d := NatToString(-i);
      NatToStringValue(-i);
      assert s == "-" + d;
      assert s[0] == '-' && s[1..] == d;
    } else {
      var d := NatToString(i);
      NatToStringValue(i);
      assert s == d && IsDigit(d[0]);
    }
  }

  /** `split_whitespace`, with `acc` the token read so far: the tokens are non-empty and hold no whitespace. */
  function SplitFrom(s: string, acc: string): (r: seq<string>)
    ensures NoWhitespace(acc) ==> forall i :: 0 <= i < |r| ==> |r[i]| > 0 && NoWhitespace(r[i])
  {
    if |s| == 0 then (if acc == "" then [] else [acc])
    else if IsWhitespace(s[0]) then (if acc == "" then SplitFrom(s[1..], "") else [acc] + SplitFrom(s[1..], ""))
    else SplitFrom(s[1..], acc + [s[0]])
  }

  function SplitWhitespace(s: string): (r: seq<string>)
    ensures forall i :: 0 <= i < |r| ==> |r[i]| > 0 && NoWhitespace(r[i])
    ensures NoWhitespace(s) && |s| > 0 ==> r == [s]
  {
    if NoWhitespace(s) then
      assert s + "" == s && "" + s == s;
      SplitFromWord(s, "", "");
      SplitFrom(s, "")
    else SplitFrom(s, "")
  }

  /** Every token followed by one space, the way DIMACS clause lines are written. */
  function Spaced(ts: seq<string>): string
  {
    if |ts| == 0 then "" else ts[0] + " " + Spaced(ts[1..])
  }

  lemma {:induction false} SplitFromWord(t: string, rest: string, acc: string)
    requires NoWhitespace(t)
    ensures SplitFrom(t + rest, acc) == SplitFrom(rest, acc + t)
  {
    if |t| > 0 {
      assert (t + rest)[0] == t[0];
      assert (t + rest)[1..] == t[1..] + rest;
      assert SplitFrom(t + rest, acc) == SplitFrom(t[1..] + rest, acc + [t[0]]);
      SplitFromWord(t[1..], rest, acc + [t[0]]);
      assert acc + [t[0]] + t[1..] == acc + t;
    } else {
      assert t + rest == rest && acc + t == acc;
    }
  }

  /** Splitting a spaced list of non-empty tokens gives the tokens back. */
  lemma {:induction false} SplitSpaced(ts: seq<string>, rest: string)
    requires forall i :: 0 <= i < |ts| ==> |ts[i]| > 0 && NoWhitespace(ts[i])
    ensures SplitFrom(Spaced(ts) + rest, "") == ts + SplitFrom(rest, "")
  {
    if |ts| > 0 {
      var t := ts[0];
      assert Spaced(ts) + rest == t + (" " + (Spaced(ts[1..]) + rest));
      var x := " " + (Spaced(ts[1..]) + rest);
      SplitFromWord(t, x, "");
      assert "" + t == t && t != "";
      assert x[0] == ' ' && x[1..] == Spaced(ts[1..]) + rest;
      assert SplitFrom(x, t) == [t] + SplitFrom(x[1..], "");
      SplitSpaced(ts[1..], rest);
      assert ts == [t] + ts[1..];
    } else {
      assert Spaced(ts) + rest == rest;
    }
  }

  /** `split(sep)`: the pieces between separators, empty ones included. */
  function Split(s: string, sep: char): (r: seq<string>)
    ensures |r| > 0
  {
    SplitAcc(s, sep, "")
  }

  function SplitAcc(s: string, sep: char, acc: string): (r: seq<string>)
    ensures |r| > 0
  {
    if |s| == 0 then [acc]
    else if s[0] == sep then [acc] + SplitAcc(s[1..], sep, "")
    else SplitAcc(s[1..], sep, acc + [s[0]])
  }

  /** `splitn(2, sep)`: the text before the first separator and, if there is one, the rest. */
  function SplitOnce(s: string, sep: char): (r: seq<string>)
    ensures 1 <= |r| <= 2
    ensures |r| == 1 <==> sep !in s
    ensures |r| == 1 ==> r[0] == s
    ensures |r| == 2 ==> s == r[0] + [sep] + r[1] && sep !in r[0]
  {
    if |s| == 0 then [s]
    else if s[0] == sep then ["", s[1..]]
    else
      var r := SplitOnce(s[1..], sep);
      if |r| == 1 then [s] else [[s[0]] + r[0], r[1]]
  }

  lemma {:induction false} JoinedSplit(a: string, b: string, sep: char)
    requires sep !in a
    ensures SplitOnce(a + [sep] + b, sep) == [a, b]
  {
    var s := a + [sep] + b;
    if |a| == 0 {
      assert s[0] == sep && s[1..] == b;
    } else {
      assert s[0] == a[0] && s[1..] == a[1..] + [sep] + b;
      JoinedSplit(a[1..], b, sep);
      assert [a[0]] + a[1..] == a;
    }
  }
  /** The pieces joined with `sep` between neighbours: the inverse of `Split`. */
  function Joined(ss: seq<string>, sep: char): string
    requires |ss| > 0
  {
    if |ss| == 1 then ss[0] else ss[0] + [sep] + Joined(ss[1..], sep)
  }

  lemma {:induction false} SplitAccWord(t: string, rest: string, sep: char, acc: string)
    requires sep !in t
    ensures SplitAcc(t + rest, sep, acc) == SplitAcc(rest, sep, acc + t)
  {
    if |t| > 0 {
      assert (t + rest)[0] == t[0] && (t + rest)[1..] == t[1..] + rest;
      SplitAccWord(t[1..], rest, sep, acc + [t[0]]);
      assert acc + [t[0]] + t[1..] == acc + t;
    } else {
      assert t + rest == rest && acc + t == acc;
    }
  }

  lemma {:induction false} SplitAccJoined(ss: seq<string>, sep: char, acc: string)
    requires |ss| > 0 && forall i :: 0 <= i < |ss| ==> sep !in ss[i]
    ensures SplitAcc(Joined(ss, sep), sep, acc) == [acc + ss[0]] + ss[1..]
  {
    if |ss| == 1 {
      SplitAccWord(ss[0], "", sep, acc);
      assert ss[0] + "" == ss[0];
    } else {
      var rest := Joined(ss[1..], sep);
      assert Joined(ss, sep) == ss[0] + ([sep] + rest);
      SplitAccWord(ss[0], [sep] + rest, sep, acc);
      assert ([sep] + rest)[0] == sep && ([sep] + rest)[1..] == rest;
      SplitAccJoined(ss[1..], sep, "");
      assert "" + ss[1] == ss[1];
      assert [ss[1]] + ss[2..] == ss[1..];
    }
  }

  /** Splitting pieces without separators, joined by that separator, gives back the pieces. */
  lemma SplitJoined(ss: seq<string>, sep: char)
    requires |ss| > 0 && forall i :: 0 <= i < |ss| ==> sep !in ss[i]
    ensures Split(Joined(ss, sep), sep) == ss
  {
    SplitAccJoined(ss, sep, "");
    assert "" + ss[0] == ss[0];
    assert [ss[0]] + ss[1..] == ss;
  }
}
