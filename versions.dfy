/** `versionSort` (src/util/versions.js) and the comparison it is built on,
    `String.prototype.localeCompare` with `{ numeric: true }`.

    The comparison is the numeric key order of `Collation`: runs of digits
    compare by value. Dotted-decimal strings ("1.19.2") therefore compare as
    the sequences of their numeric components, lexicographically, a proper
    prefix first ("1.19" < "1.19.1" < "1.20"). */
module Versions {
  import opened Wrappers
  import opened Strs
  import opened Sorting
  import opened Collation

  /** The numeric components of the pieces, if every piece is a numeral. */
  function ParseComponents(pieces: seq<string>): (r: Option<seq<nat>>)
    ensures r.Some? ==> |r.value| == |pieces|
  {
    if pieces == [] then Some([])
    else if !IsNumeral(pieces[0]) then None
    else match ParseComponents(pieces[1..])
      case None => None
      case Some(rest) => Some([DigitsValue(pieces[0])] + rest)
  }

  /** The components of a dotted-decimal version string ("1.19.2" gives
      [1, 19, 2]); None for any other string. */
  function ParseDotted(s: string): Option<seq<nat>> {
    ParseComponents(Split(s, '.'))
  }

  predicate IsDotted(s: string) {
    ParseDotted(s).Some?
  }

  /** `a.localeCompare(b, [], { numeric: true })`: negative, zero or
      positive as `a` sorts before, together with or after `b`. */
  function Compare(a: string, b: string): int {
    LexCompare(NumericKey(a), NumericKey(b))
  }

  /** The numeric key of a dotted-decimal version with components
      `parts`: one unit per component, with the unit of a `.` between two
      neighbours. */
  function DottedKey(parts: seq<nat>): seq<int> {
    if parts == [] then []
    else if |parts| == 1 then [1, parts[0]]
    else [1, parts[0], 0, '.' as int] + DottedKey(parts[1..])
  }

  /** A numeral and a `.` in front of a string add their two units. */
  lemma DotKey(head: string, tail: string)
    requires head != [] && LeadingDigits(head) == |head|
    ensures NumericKey(head + ['.'] + tail) == [1, DigitsValue(head), 0, '.' as int] + NumericKey(tail)
  {
    var dotted := ['.'] + tail;
    assert head + ['.'] + tail == head + dotted;
    var k := NumericKey(tail);
    assert NumericKey(dotted) == [0, '.' as int] + k by {
      NonDigitKey('.', tail);
    }
    RunHead(head, dotted);
  }

  /** Numerals joined with `.` have the key of their values. */
  lemma {:induction false} JoinKey(pieces: seq<string>)
    requires |pieces| >= 1 && ParseComponents(pieces).Some?
    ensures NumericKey(Join(pieces, '.')) == DottedKey(ParseComponents(pieces).value)
    decreases |pieces|
  {
    var head := pieces[0];
    assert IsNumeral(head);
    var v := DigitsValue(head);
    var rest := ParseComponents(pieces[1..]).value;
    assert ParseComponents(pieces).value == [v] + rest;
    if |pieces| == 1 {
      assert pieces[1..] == [] && rest == [];
      NumeralKey(head);
    } else {
      JoinKey(pieces[1..]);
      NumeralLeadingDigits(head);
      DotKey(head, Join(pieces[1..], '.'));
      assert ([v] + rest)[1..] == rest;
    }
  }

  /** Comparing the keys of two versions compares their components. */
  lemma {:induction false} LexCompareDottedKey(p: seq<nat>, q: seq<nat>)
    requires p != [] && q != []
    ensures LexCompare(DottedKey(p), DottedKey(q)) == LexCompare(p, q)
    decreases |p|
  {
    var kp, kq := DottedKey(p), DottedKey(q);
    if p[0] != q[0] {
      assert kp[1..][0] == p[0] && kq[1..][0] == q[0];
    } else if |p| == 1 && |q| == 1 {
      assert kp == kq && p == q;
      LexCompareAntisymmetric(kp, kq);
      LexCompareAntisymmetric(p, q);
    } else if |p| == 1 {
      assert kp[1..][0] == kq[1..][0];
      assert kp[1..][1..] == [] && kq[1..][1..] != [];
      assert LexCompare(kp[1..], kq[1..]) == -1;
      assert p[1..] == [] && q[1..] != [];
    } else if |q| == 1 {
      assert kp[1..][0] == kq[1..][0];
      assert kq[1..][1..] == [] && kp[1..][1..] != [];
      assert LexCompare(kp[1..], kq[1..]) == 1;
      assert q[1..] == [] && p[1..] != [];
    } else {
      var k := [1, p[0], 0, '.' as int];
      assert kp == k + DottedKey(p[1..]) && kq == k + DottedKey(q[1..]);
      LexCompareCommonPrefix(k, DottedKey(p[1..]), DottedKey(q[1..]));
      LexCompareDottedKey(p[1..], q[1..]);
    }
  }

  /** Two dotted-decimal versions compare as their component sequences. */
  lemma CompareDotted(a: string, b: string)
    requires IsDotted(a) && IsDotted(b)
    ensures Compare(a, b) == LexCompare(ParseDotted(a).value, ParseDotted(b).value)
  {
    SplitJoin(a, '.');
    SplitJoin(b, '.');
    JoinKey(Split(a, '.'));
    JoinKey(Split(b, '.'));
    LexCompareDottedKey(ParseDotted(a).value, ParseDotted(b).value);
  }

  lemma CompareAntisymmetric(a: string, b: string)
    ensures Compare(a, b) == -Compare(b, a)
  {
    LexCompareAntisymmetric(NumericKey(a), NumericKey(b));
  }

  lemma CompareTransitive(a: string, b: string, c: string)
    requires Compare(a, b) <= 0 && Compare(b, c) <= 0
    ensures Compare(a, c) <= 0
  {
    LexCompareTransitive(NumericKey(a), NumericKey(b), NumericKey(c));
  }

  /** The comparator `versionSort` hands to `sort`:
      `(descending ? 1 : -1) * b.localeCompare(a, ...)`. */
  function SortComparator(descending: bool, a: string, b: string): int {
    (if descending then 1 else -1) * Compare(b, a)
  }

  /** `a` may stay in front of `b` when the comparator is not positive. */
  function Before(descending: bool): (string, string) -> bool {
    (a, b) => SortComparator(descending, a, b) <= 0
  }

  /** `versionSort(targetArray, descending)`: a sorted copy of the array. */
  function VersionSort(xs: seq<string>, descending: bool := true): seq<string> {
    SortBy(xs, Before(descending))
  }

  lemma BeforeTotalOrder(descending: bool)
    ensures Total(Before(descending)) && Transitive(Before(descending))
  {
    var before := Before(descending);
    forall a, b ensures before(a, b) || before(b, a) {
      CompareAntisymmetric(a, b);
    }
    forall a, b, c | before(a, b) && before(b, c) ensures before(a, c) {
      CompareAntisymmetric(a, b);
      CompareAntisymmetric(b, c);
      CompareAntisymmetric(a, c);
      if descending {
        CompareTransitive(c, b, a);
      } else {
        CompareTransitive(a, b, c);
      }
    }
  }

  /** The result holds the same strings as the input, as often. */
  lemma VersionSortPermutation(xs: seq<string>, descending: bool)
    ensures multiset(VersionSort(xs, descending)) == multiset(xs)
    ensures |VersionSort(xs, descending)| == |xs|
  {
    SortPermutation(xs, Before(descending));
    assert |multiset(VersionSort(xs, descending))| == |multiset(xs)|;
  }

  /** Descending: every element is at least its successor ("1.10" before
      "1.9"); ascending: at most. */
  lemma VersionSortOrdered(xs: seq<string>, descending: bool)
    ensures var r := VersionSort(xs, descending);
      forall i :: 0 <= i < |r| - 1 ==>
        if descending then Compare(r[i], r[i + 1]) >= 0 else Compare(r[i], r[i + 1]) <= 0
  {
    BeforeTotalOrder(descending);
    SortSorted(xs, Before(descending));
    var r := VersionSort(xs, descending);
    forall i | 0 <= i < |r| - 1
      ensures if descending then Compare(r[i], r[i + 1]) >= 0 else Compare(r[i], r[i + 1]) <= 0
    {
      assert Before(descending)(r[i], r[i + 1]);
      CompareAntisymmetric(r[i], r[i + 1]);
    }
  }

  /** The first element of a descending sort of a non-empty list is one of
      its elements and is at least every element: the latest version. */
  lemma VersionSortFirstIsMax(xs: seq<string>)
    requires xs != []
    ensures VersionSort(xs)[0] in xs
    ensures forall x :: x in xs ==> Compare(VersionSort(xs)[0], x) >= 0
  {
    var r := VersionSort(xs);
    VersionSortPermutation(xs, true);
    assert r[0] in multiset(r);
    BeforeTotalOrder(true);
    SortSorted(xs, Before(true));
    forall x | x in xs ensures Compare(r[0], x) >= 0 {
      assert x in multiset(r);
      var k :| 0 <= k < |r| && r[k] == x;
      SortedFirst(r, Before(true), k);
      CompareAntisymmetric(r[0], x);
    }
  }

  /** In a descending sort, an element is at least every element after it. */
  lemma VersionSortDescending(xs: seq<string>, i: nat, j: nat)
    requires i <= j < |xs|
    ensures |VersionSort(xs)| == |xs|
    ensures Compare(VersionSort(xs)[i], VersionSort(xs)[j]) >= 0
  {
    var r := VersionSort(xs);
    VersionSortPermutation(xs, true);
    BeforeTotalOrder(true);
    SortSorted(xs, Before(true));
    var tail := r[i..];
    forall k | 0 <= k < |tail| - 1 ensures Before(true)(tail[k], tail[k + 1]) {
      assert tail[k] == r[i + k] && tail[k + 1] == r[i + k + 1];
    }
    SortedFirst(tail, Before(true), j - i);
    assert tail[0] == r[i] && tail[j - i] == r[j];
    CompareAntisymmetric(r[i], r[j]);
  }

  /** The sort keeps exactly the elements of its input. */
  lemma VersionSortSameElements(xs: seq<string>)
    ensures forall v :: v in VersionSort(xs) <==> v in xs
  {
    VersionSortPermutation(xs, true);
    forall v ensures v in VersionSort(xs) <==> v in xs {
      assert v in VersionSort(xs) <==> v in multiset(VersionSort(xs));
      assert v in xs <==> v in multiset(xs);
    }
  }
}
