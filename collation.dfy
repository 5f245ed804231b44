/** The string order behind the two `localeCompare` calls of the core, as
    sort keys compared with `LexCompare`.

    The order is a stand-in for the locale's collation that keeps the
    features the core relies on: characters fall into three primary groups,
    punctuation and symbols first, then digits, then letters, and within a
    group they compare by code. With `{ numeric: true }` a maximal run of
    digits is one unit that compares by its numeric value, so "1.9" sorts
    before "1.10". */
module Collation {
  import opened Sorting

  predicate IsDigit(c: char) {
    '0' <= c <= '9'
  }

  predicate IsNumeral(s: string) {
    s != [] && forall i :: 0 <= i < |s| ==> IsDigit(s[i])
  }

  /** Letters: the ASCII ones and every character outside ASCII. */
  predicate IsLetter(c: char) {
    'A' <= c <= 'Z' || 'a' <= c <= 'z' || c as int >= 0x80
  }

  /** The primary group of a character. */
  function CharGroup(c: char): (g: int)
    ensures g == 1 <==> IsDigit(c)
    ensures 0 <= g <= 2
  {
    if IsDigit(c) then 1 else if IsLetter(c) then 2 else 0
  }

  /** The value of a decimal digit. */
  function DigitOf(c: char): nat {
    if IsDigit(c) then c as int - '0' as int else 0
  }

  /** The value of a string of decimal digits, read most significant
      first. */
  function DigitsValue(s: string): nat {
    if s == [] then 0 else 10 * DigitsValue(s[..|s| - 1]) + DigitOf(s[|s| - 1])
  }

  /** The length of the run of digits `s` starts with. */
  function LeadingDigits(s: string): (n: nat)
    ensures n <= |s|
    ensures n == |s| || !IsDigit(s[n])
  {
    if s != [] && IsDigit(s[0]) then 1 + LeadingDigits(s[1..]) else 0
  }

  /** Every character of the leading run is a digit. */
  lemma {:induction false} LeadingDigitsAreDigits(s: string, k: nat)
    requires k < LeadingDigits(s)
    ensures IsDigit(s[k])
  {
    if k > 0 {
      LeadingDigitsAreDigits(s[1..], k - 1);
    }
  }

  /** A numeral is one run of digits. */
  lemma {:induction false} NumeralLeadingDigits(x: string)
    requires IsNumeral(x)
    ensures LeadingDigits(x) == |x|
  {
    if |x| > 1 {
      assert IsNumeral(x[1..]) by {
        forall i | 0 <= i < |x[1..]| ensures IsDigit(x[1..][i]) {
          assert x[1..][i] == x[i + 1];
        }
      }
      NumeralLeadingDigits(x[1..]);
    } else {
      assert IsDigit(x[0]);
    }
  }

  /** The key of a string under `{ numeric: true }`: a maximal run of
      digits contributes the pair [1, its value], any other character the
      pair [its group, its code]. */
  function NumericKey(s: string): seq<int>
    decreases |s|
  {
    if s == [] then []
    else
      var n := LeadingDigits(s);
      if n > 0 then [1, DigitsValue(s[..n])] + NumericKey(s[n..])
      else [CharGroup(s[0]), s[0] as int] + NumericKey(s[1..])
  }

  /** The key without the numeric option: one pair per character. */
  function PlainKey(s: string): seq<int> {
    if s == [] then [] else [CharGroup(s[0]), s[0] as int] + PlainKey(s[1..])
  }

  /** A string that does not end in a digit. */
  predicate EndsNonDigit(s: string) {
    s == [] || !IsDigit(s[|s| - 1])
  }

  /** A string that does not start with a digit. */
  predicate StartsNonDigit(s: string) {
    s == [] || !IsDigit(s[0])
  }

  /** The run of digits at the start of `a + b` is that of `a`, extended
      into `b` only when `a` is all digits. */
  lemma {:induction false} LeadingDigitsAppend(a: string, b: string)
    ensures LeadingDigits(a) < |a| ==> LeadingDigits(a + b) == LeadingDigits(a)
    ensures LeadingDigits(a) == |a| ==> LeadingDigits(a + b) == |a| + LeadingDigits(b)
  {
    if a == [] {
      assert a + b == b;
    } else if IsDigit(a[0]) {
      assert (a + b)[0] == a[0] && (a + b)[1..] == a[1..] + b;
      LeadingDigitsAppend(a[1..], b);
    } else {
      assert (a + b)[0] == a[0];
    }
  }

  /** Keys add up over a cut that does not split a run of digits. */
  lemma {:induction false} NumericKeyAppend(a: string, b: string)
    requires EndsNonDigit(a) || StartsNonDigit(b)
    ensures NumericKey(a + b) == NumericKey(a) + NumericKey(b)
    decreases |a|, 1
  {
    if a == [] {
      assert a + b == b;
    } else {
      var n := LeadingDigits(a);
      if n == 0 {
        NonDigitAppend(a, b);
      } else if n < |a| {
        RunAppend(a, b);
      } else {
        WholeRunAppend(a, b);
      }
    }
  }

  /** The case of `NumericKeyAppend` where `a` starts with a character
      that is not a digit. */
  lemma {:induction false} NonDigitAppend(a: string, b: string)
    requires EndsNonDigit(a) || StartsNonDigit(b)
    requires a != [] && !IsDigit(a[0])
    ensures NumericKey(a + b) == NumericKey(a) + NumericKey(b)
    decreases |a|, 0
  {
    var c, t := a[0], a[1..];
    var unit := [CharGroup(c), c as int];
    assert a == [c] + t;
    assert a + b == [c] + (t + b);
    assert NumericKey(a) == unit + NumericKey(t) by {
      NonDigitKey(c, t);
    }
    assert NumericKey(a + b) == unit + NumericKey(t + b) by {
      NonDigitKey(c, t + b);
    }
    assert NumericKey(t + b) == NumericKey(t) + NumericKey(b) by {
      assert t == [] || t[|t| - 1] == a[|a| - 1];
      NumericKeyAppend(t, b);
    }
  }

  /** The case of `NumericKeyAppend` where `a` starts with a run of digits
      that ends inside `a`. */
  lemma {:induction false} RunAppend(a: string, b: string)
    requires EndsNonDigit(a) || StartsNonDigit(b)
    requires 0 < LeadingDigits(a) < |a|
    ensures NumericKey(a + b) == NumericKey(a) + NumericKey(b)
    decreases |a|, 0
  {
    var n := LeadingDigits(a);
    var ab, t := a + b, a[n..];
    var d := DigitsValue(a[..n]);
    assert NumericKey(a) == [1, d] + NumericKey(t) by {
      RunStep(a);
    }
    assert NumericKey(ab) == [1, d] + NumericKey(t + b) by {
      LeadingDigitsAppend(a, b);
      assert ab[..n] == a[..n] && ab[n..] == t + b;
      RunStep(ab);
    }
    assert NumericKey(t + b) == NumericKey(t) + NumericKey(b) by {
      assert t[|t| - 1] == a[|a| - 1];
      NumericKeyAppend(t, b);
    }
  }

  /** A string starting with a run of digits has the unit of that run
      first. */
  lemma RunStep(s: string)
    requires LeadingDigits(s) > 0
    ensures NumericKey(s) == [1, DigitsValue(s[..LeadingDigits(s)])] + NumericKey(s[LeadingDigits(s)..])
  {
  }

  /** The case of `NumericKeyAppend` where `a` is all digits, so `b` starts
      with a character that is not one. */
  lemma WholeRunAppend(a: string, b: string)
    requires EndsNonDigit(a) || StartsNonDigit(b)
    requires a != [] && LeadingDigits(a) == |a|
    ensures NumericKey(a + b) == NumericKey(a) + NumericKey(b)
  {
    LeadingDigitsAreDigits(a, |a| - 1);
    RunHead(a, b);
    RunUnit(a);
  }

  /** A numeral is one unit of the numeric key. */
  lemma NumeralKey(x: string)
    requires IsNumeral(x)
    ensures NumericKey(x) == [1, DigitsValue(x)]
  {
    NumeralLeadingDigits(x);
    RunUnit(x);
  }

  /** A string that is one run of digits is one unit of the numeric key. */
  lemma RunUnit(x: string)
    requires x != [] && LeadingDigits(x) == |x|
    ensures NumericKey(x) == [1, DigitsValue(x)]
  {
    assert x[..|x|] == x && x[|x|..] == [];
  }

  /** A character that is not a digit is one unit of either key. */
  lemma NonDigitKey(c: char, rest: string)
    requires !IsDigit(c)
    ensures NumericKey([c] + rest) == [CharGroup(c), c as int] + NumericKey(rest)
  {
    assert ([c] + rest)[0] == c && ([c] + rest)[1..] == rest;
  }

  /** A common prefix of keys does not decide a comparison. */
  lemma {:induction false} LexCompareCommonPrefix(k: seq<int>, a: seq<int>, b: seq<int>)
    ensures LexCompare(k + a, k + b) == LexCompare(a, b)
  {
    if k != [] {
      assert (k + a)[0] == k[0] == (k + b)[0];
      assert (k + a)[1..] == k[1..] + a && (k + b)[1..] == k[1..] + b;
      LexCompareCommonPrefix(k[1..], a, b);
    } else {
      assert k + a == a && k + b == b;
    }
  }

  /** A string that starts with a whole run of digits has the unit of
      that run first. */
  lemma RunHead(x: string, r: string)
    requires x != [] && LeadingDigits(x) == |x| && StartsNonDigit(r)
    ensures NumericKey(x + r) == [1, DigitsValue(x)] + NumericKey(r)
  {
    LeadingDigitsAppend(x, r);
    assert (x + r)[..|x|] == x && (x + r)[|x|..] == r;
  }

  /** The key of a string cut around a whole run of digits. */
  lemma RunKey(p: string, x: string, r: string)
    requires IsNumeral(x) && EndsNonDigit(p) && StartsNonDigit(r)
    ensures NumericKey(p + x + r) == NumericKey(p) + ([1, DigitsValue(x)] + NumericKey(r))
  {
    NumeralLeadingDigits(x);
    RunHead(x, r);
    assert p + x + r == p + (x + r);
    NumericKeyAppend(p, x + r);
  }

  /** Keys whose first pairs differ in the second place only compare as
      those places do. */
  lemma LexCompareSecond(g: int, u: int, v: int, a: seq<int>, b: seq<int>)
    requires u != v
    ensures LexCompare([g, u] + a, [g, v] + b) == if u < v then -1 else 1
  {
    var ka, kb := [g, u] + a, [g, v] + b;
    assert ka[0] == kb[0] == g;
    assert ka[1..] == [u] + a && kb[1..] == [v] + b;
    assert ka[1..][0] == u && kb[1..][0] == v;
  }

  /** The numeric option at work: two strings that agree up to a run of
      digits, with the runs ending where the strings stop being digits,
      compare as the values of the runs, whatever follows. So
      "1.9.0-1.19.2" sorts before "1.10.0-1.19.2", and "1.19-pre1" before
      "1.20". */
  lemma CompareDigitRuns(p: string, x: string, y: string, r: string, t: string)
    requires IsNumeral(x) && IsNumeral(y) && DigitsValue(x) != DigitsValue(y)
    requires EndsNonDigit(p) && StartsNonDigit(r) && StartsNonDigit(t)
    ensures LexCompare(NumericKey(p + x + r), NumericKey(p + y + t))
      == if DigitsValue(x) < DigitsValue(y) then -1 else 1
  {
    var vx, vy := DigitsValue(x), DigitsValue(y);
    var kp, kr, kt := NumericKey(p), NumericKey(r), NumericKey(t);
    RunKey(p, x, r);
    RunKey(p, y, t);
    LexCompareCommonPrefix(kp, [1, vx] + kr, [1, vy] + kt);
    LexCompareSecond(1, vx, vy, kr, kt);
  }
}
