/** The few `String.prototype` operations the core relies on, over `seq<char>`:
    `startsWith`, `endsWith`, `split` with a one-character separator, `join`,
    and `replace` with a string pattern (first occurrence only). */
module Strs {

  predicate StartsWith(s: string, prefix: string) {
    |prefix| <= |s| && s[..|prefix|] == prefix
  }

  predicate EndsWith(s: string, suffix: string) {
    |suffix| <= |s| && s[|s| - |suffix|..] == suffix
  }

  /** Number of occurrences of the character `c` in `s`. */
  function Count(s: string, c: char): nat {
    if s == [] then 0 else (if s[0] == c then 1 else 0) + Count(s[1..], c)
  }

  /** `s.split(c)`: the maximal pieces of `s` between occurrences of `c`. */
  function Split(s: string, c: char): (parts: seq<string>)
    ensures |parts| >= 1
  {
    if s == [] then [""]
    else if s[0] == c then [""] + Split(s[1..], c)
    else
      var rest := Split(s[1..], c);
      [[s[0]] + rest[0]] + rest[1..]
  }

  /** `parts.join(c)`. */
  function Join(parts: seq<string>, c: char): string {
    if parts == [] then ""
    else if |parts| == 1 then parts[0]
    else parts[0] + [c] + Join(parts[1..], c)
  }

  /** `s.replace(pattern, r)` for a string pattern: only the first occurrence is
      replaced, and a string without one comes back unchanged. */
  function ReplaceFirst(s: string, pattern: string, r: string): string
    decreases |s|
  {
    if StartsWith(s, pattern) then r + s[|pattern|..]
    else if s == [] then s
    else [s[0]] + ReplaceFirst(s[1..], pattern, r)
  }

  /** Splitting yields one piece more than there are separators, no piece
      contains the separator, and joining the pieces gives the string back. */
  lemma {:induction false} SplitJoin(s: string, c: char)
    ensures |Split(s, c)| == Count(s, c) + 1
    ensures forall i :: 0 <= i < |Split(s, c)| ==> c !in Split(s, c)[i]
    ensures Join(Split(s, c), c) == s
  {
    if s == [] {
    } else {
      SplitJoin(s[1..], c);
      var rest := Split(s[1..], c);
      if s[0] == c {
        assert Split(s, c) == [""] + rest;
        assert Join(Split(s, c), c) == "" + [c] + Join(rest, c);
        assert s == [s[0]] + s[1..];
      } else {
        var parts := Split(s, c);
        assert parts[0] == [s[0]] + rest[0];
        assert parts[1..] == rest[1..];
        if |rest| == 1 {
          assert parts == [[s[0]] + rest[0]];
          assert s == [s[0]] + s[1..];
        } else {
          assert Join(rest, c) == rest[0] + [c] + Join(rest[1..], c);
          assert Join(parts, c) == [s[0]] + rest[0] + [c] + Join(rest[1..], c);
          assert s == [s[0]] + s[1..];
        }
      }
    }
  }

  /** A string without the separator is a single piece. */
  lemma {:induction false} SplitNoSeparator(s: string, c: char)
    requires c !in s
    ensures Split(s, c) == [s]
  {
    if s != [] {
      assert s[0] != c;
      SplitNoSeparator(s[1..], c);
      assert [s[0]] + s[1..] == s;
    }
  }

  /** The first piece ends at the first separator. */
  lemma {:induction false} SplitAtFirst(a: string, b: string, c: char)
    requires c !in a
    ensures Split(a + [c] + b, c) == [a] + Split(b, c)
  {
    if a == [] {
      assert a + [c] + b == [c] + b;
      assert ([c] + b)[1..] == b;
    } else {
      assert (a + [c] + b)[1..] == a[1..] + [c] + b;
      SplitAtFirst(a[1..], b, c);
      assert [a[0]] + a[1..] == a;
    }
  }

  /** An occurrence of `pattern` in `s` starting at index `i`. */
  predicate OccursAt(s: string, pattern: string, i: nat) {
    i + |pattern| <= |s| && s[i..i + |pattern|] == pattern
  }

  lemma OccursAtShift(x: char, s: string, pattern: string, i: nat)
    ensures OccursAt([x] + s, pattern, i + 1) <==> OccursAt(s, pattern, i)
  {
    if i + |pattern| <= |s| {
      assert ([x] + s)[i + 1..i + 1 + |pattern|] == s[i..i + |pattern|];
    }
  }

  /** Occurrences absent from the first `k` positions of `s` are absent
      from the first `k - 1` positions of its tail. */
  lemma NoOccurrenceInTail(s: string, k: nat, pattern: string)
    requires 0 < k <= |s|
    requires forall i :: 0 <= i < k ==> !OccursAt(s, pattern, i)
    ensures forall i :: 0 <= i < k - 1 ==> !OccursAt(s[1..], pattern, i)
  {
    forall i | 0 <= i < k - 1
      ensures !OccursAt(s[1..], pattern, i)
    {
      OccursAtShift(s[0], s[1..], pattern, i);
      assert [s[0]] + s[1..] == s;
    }
  }

  /** Replacing in `s`, when no occurrence of the pattern starts before
      index `k`, leaves `s[..k]` alone. */
  lemma {:induction false} ReplaceFirstSkip(s: string, k: nat, pattern: string, r: string)
    requires k <= |s|
    requires forall i :: 0 <= i < k ==> !OccursAt(s, pattern, i)
    ensures ReplaceFirst(s, pattern, r) == s[..k] + ReplaceFirst(s[k..], pattern, r)
  {
    if k > 0 {
      var t := s[1..];
      assert ReplaceFirst(s, pattern, r) == [s[0]] + ReplaceFirst(t, pattern, r) by {
        assert !OccursAt(s, pattern, 0);
      }
      NoOccurrenceInTail(s, k, pattern);
      ReplaceFirstSkip(t, k - 1, pattern, r);
      assert t[k - 1..] == s[k..] && [s[0]] + t[..k - 1] == s[..k];
      assert [s[0]] + (t[..k - 1] + ReplaceFirst(s[k..], pattern, r))
        == s[..k] + ReplaceFirst(s[k..], pattern, r);
    }
  }

  /** A string that starts with the pattern has its first occurrence replaced. */
  lemma ReplaceFirstAtStart(pattern: string, b: string, r: string)
    ensures ReplaceFirst(pattern + b, pattern, r) == r + b
  {
    assert (pattern + b)[..|pattern|] == pattern;
    assert (pattern + b)[|pattern|..] == b;
  }

  /** No occurrence of a pattern can start at a character that differs from
      the pattern's first one. */
  lemma NoOccurrenceWithout(a: string, b: string, pattern: string)
    requires pattern != [] && pattern[0] !in a
    ensures forall i :: 0 <= i < |a| ==> !OccursAt(a + b, pattern, i)
  {
    forall i | 0 <= i < |a|
      ensures !OccursAt(a + b, pattern, i)
    {
      assert (a + b)[i] == a[i];
    }
  }

  /** Joining pieces free of the separator and splitting again gives the
      pieces back. */
  lemma {:induction false} JoinSplit(parts: seq<string>, c: char)
    requires |parts| >= 1
    requires forall i :: 0 <= i < |parts| ==> c !in parts[i]
    ensures Split(Join(parts, c), c) == parts
    decreases |parts|
  {
    if |parts| == 1 {
      SplitNoSeparator(parts[0], c);
    } else {
      JoinSplit(parts[1..], c);
      SplitAtFirst(parts[0], Join(parts[1..], c), c);
      assert [parts[0]] + parts[1..] == parts;
    }
  }

  /** A string holding the separator splits into at least two pieces. */
  lemma {:induction false} SplitHasTwo(s: string, c: char)
    requires c in s
    ensures |Split(s, c)| >= 2
  {
    if s[0] != c {
      assert c in s[1..];
      SplitHasTwo(s[1..], c);
    }
  }

  /** An occurrence in `a + s` past `a` is an occurrence in `s`. */
  lemma OccursAtAppend(a: string, s: string, pattern: string, i: nat)
    ensures OccursAt(a + s, pattern, |a| + i) <==> OccursAt(s, pattern, i)
  {
    if i + |pattern| <= |s| {
      assert (a + s)[|a| + i..|a| + i + |pattern|] == s[i..i + |pattern|];
    }
  }
}
