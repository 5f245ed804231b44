/** `Arrays.unique` and `Arrays.sortedUnique` (src/util/arrays.js).

    Both take a rest parameter (`...array`): the arguments themselves are
    the list that is de-duplicated. A call with one array argument therefore
    works on a one-element list holding that array. */
module Arrays {
  import opened Strs
  import opened Sorting
  import opened Collation

  /** `Array.from(new Set(args))`: each distinct argument once, in order of
      first occurrence. */
  function Unique<T(==)>(args: seq<T>): (r: seq<T>)
    ensures |r| <= |args|
    ensures forall i :: 0 <= i < |args| ==> args[i] in r
    ensures forall i :: 0 <= i < |r| ==> r[i] in args
    ensures forall i, j :: 0 <= i < j < |r| ==> r[i] != r[j]
  {
    if args == [] then []
    else
      var r := Unique(args[..|args| - 1]);
      var last := args[|args| - 1];
      if last in r then r else r + [last]
  }

  /** Index of the first occurrence of `x`. */
  function FirstIndex<T(==)>(xs: seq<T>, x: T): (k: nat)
    requires x in xs
    ensures k < |xs| && xs[k] == x
    ensures forall j :: 0 <= j < k ==> xs[j] != x
  {
    if xs[0] == x then 0 else 1 + FirstIndex(xs[1..], x)
  }

  lemma {:induction false} FirstIndexPrefix<T>(xs: seq<T>, n: nat, x: T)
    requires n <= |xs| && x in xs[..n]
    ensures FirstIndex(xs, x) == FirstIndex(xs[..n], x)
  {
    var p := xs[..n];
    assert p[0] == xs[0];
    if xs[0] != x {
      assert p[1..] == xs[1..][..n - 1];
      assert x in p[1..];
      FirstIndexPrefix(xs[1..], n - 1, x);
    }
  }

  /** The distinct arguments come out in the order of their first
      occurrence. */
  lemma {:induction false} UniqueFirstOccurrenceOrder<T>(args: seq<T>)
    ensures forall i, j :: 0 <= i < j < |Unique(args)| ==>
      FirstIndex(args, Unique(args)[i]) < FirstIndex(args, Unique(args)[j])
  {
    if args != [] {
      var n := |args| - 1;
      var init := args[..n];
      UniqueFirstOccurrenceOrder(init);
      var r0 := Unique(init);
      var r := Unique(args);
      var last := args[n];
      assert r == if last in r0 then r0 else r0 + [last];
      forall i, j | 0 <= i < j < |r|
        ensures FirstIndex(args, r[i]) < FirstIndex(args, r[j])
      {
        assert r[i] == r0[i] && r[i] in init;
        FirstIndexPrefix(args, n, r[i]);
        if j < |r0| {
          assert r[j] == r0[j] && r[j] in init;
          FirstIndexPrefix(args, n, r[j]);
          assert FirstIndex(init, r0[i]) < FirstIndex(init, r0[j]);
        } else {
          assert r[j] == last && last !in init;
        }
      }
    }
  }

  /** ASCII upper-casing, a stand-in for `String.prototype.toUpperCase`. */
  function ToUpper(s: string): string {
    seq(|s|, i requires 0 <= i < |s| =>
      if 'a' <= s[i] <= 'z' then (s[i] as int - 'a' as int + 'A' as int) as char else s[i])
  }

  /** The comparator `(a, b) => a.toUpperCase().localeCompare(b.toUpperCase())`:
      the upper-cased strings in the plain key order of `Collation`. */
  function UpperCaseCompare(a: string, b: string): int {
    LexCompare(PlainKey(ToUpper(a)), PlainKey(ToUpper(b)))
  }

  function UpperCaseBefore(): (string, string) -> bool {
    (a, b) => UpperCaseCompare(a, b) <= 0
  }

  /** The upper-cased comparator is a total preorder. */
  lemma UpperCaseBeforeTotalOrder()
    ensures Total(UpperCaseBefore()) && Transitive(UpperCaseBefore())
  {
    var before := UpperCaseBefore();
    forall a, b ensures before(a, b) || before(b, a) {
      LexCompareAntisymmetric(PlainKey(ToUpper(a)), PlainKey(ToUpper(b)));
    }
    forall a, b, c | before(a, b) && before(b, c) ensures before(a, c) {
      LexCompareTransitive(PlainKey(ToUpper(a)), PlainKey(ToUpper(b)), PlainKey(ToUpper(c)));
    }
  }

  /** Sorting with the upper-cased comparator keeps the elements and puts
      neighbours in upper-cased order. */
  lemma UpperCaseSorted(xs: seq<string>)
    ensures var r := SortBy(xs, UpperCaseBefore());
      && multiset(r) == multiset(xs)
      && forall i :: 0 <= i < |r| - 1 ==> UpperCaseCompare(r[i], r[i + 1]) <= 0
  {
    var before := UpperCaseBefore();
    SortPermutation(xs, before);
    forall a, b ensures before(a, b) || before(b, a) {
      LexCompareAntisymmetric(PlainKey(ToUpper(a)), PlainKey(ToUpper(b)));
    }
    SortSorted(xs, before);
  }

  /** A sequence without repeats holds each value at most once. */
  lemma {:induction false} DistinctOnce<T>(xs: seq<T>, x: T)
    requires forall i, j :: 0 <= i < j < |xs| ==> xs[i] != xs[j]
    ensures multiset(xs)[x] <= 1
    decreases |xs|
  {
    if xs != [] {
      var init := xs[..|xs| - 1];
      assert xs == init + [xs[|xs| - 1]];
      DistinctOnce(init, x);
      if xs[|xs| - 1] == x {
        forall k | 0 <= k < |init| ensures init[k] != x {
          assert init[k] == xs[k];
        }
        assert x !in init;
      }
    }
  }

  /** A value at two positions occurs at least twice. */
  lemma RepeatedTwice<T>(xs: seq<T>, i: nat, j: nat)
    requires i < j < |xs| && xs[i] == xs[j]
    ensures multiset(xs)[xs[i]] >= 2
  {
    assert xs == xs[..j] + [xs[j]] + xs[j + 1..];
    assert xs[..j][i] == xs[i];
    assert xs[i] in multiset(xs[..j]);
  }

  /** `sortedUnique(...args)`: the distinct arguments, sorted by their
      upper-cased text. */
  function SortedUnique(args: seq<string>): seq<string> {
    SortBy(Unique(args), UpperCaseBefore())
  }

  /** `sortedUnique` keeps exactly the distinct arguments `unique` keeps,
      each once, puts them in upper-cased order and is no longer than its
      argument list. */
  lemma SortedUniqueProperties(args: seq<string>)
    ensures var r := SortedUnique(args);
      && multiset(r) == multiset(Unique(args))
      && (forall x :: x in r <==> x in args)
      && |r| <= |args|
      && (forall i, j :: 0 <= i < j < |r| ==> r[i] != r[j])
      && forall i :: 0 <= i < |r| - 1 ==> UpperCaseCompare(r[i], r[i + 1]) <= 0
  {
    UpperCaseSorted(Unique(args));
    var r := SortedUnique(args);
    forall i, j | 0 <= i < j < |r| ensures r[i] != r[j] {
      if r[i] == r[j] {
        RepeatedTwice(r, i, j);
        DistinctOnce(Unique(args), r[i]);
      }
    }
    forall x ensures x in r <==> x in args {
      assert x in r <==> x in multiset(r);
      assert x in Unique(args) <==> x in multiset(Unique(args));
    }
    assert |r| == |multiset(r)| == |multiset(Unique(args))| == |Unique(args)|;
  }

  /** What `sortedUnique(array)` returns when it is called, as the core
      does, with ONE array `items`: the rest parameter is `[items]`, `unique` gives
      it back unchanged and sorting a single element never calls the
      comparator. The result is the one-element list holding the array, not
      the array de-duplicated. */
  function SortedUniqueOfOneArray<T(==)>(items: seq<T>): (r: seq<seq<T>>)
    ensures r == [items]
  {
    Unique([items])
  }
}
