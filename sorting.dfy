/** `Array.prototype.sort` with a comparator, as the core uses it: a stable
    sort in which `a` may stay in front of `b` exactly when the comparator
    returns a value `<= 0` for them. It is written as an insertion sort, and
    `LexCompare`, the lexicographic three-way comparison both comparators of
    the core are built from. */
module Sorting {

  /** Inserts `x` in front of the first element it may precede. */
  function Insert<T>(x: T, ys: seq<T>, before: (T, T) -> bool): seq<T> {
    if ys == [] then [x]
    else if before(x, ys[0]) then [x] + ys
    else [ys[0]] + Insert(x, ys[1..], before)
  }

  /** The sorted copy: each element is inserted into the sorted rest, so of
      two elements that may precede each other the earlier one stays first. */
  function SortBy<T>(xs: seq<T>, before: (T, T) -> bool): seq<T> {
    if xs == [] then [] else Insert(xs[0], SortBy(xs[1..], before), before)
  }

  ghost predicate Total<T(!new)>(before: (T, T) -> bool) {
    forall a, b :: before(a, b) || before(b, a)
  }

  ghost predicate Transitive<T(!new)>(before: (T, T) -> bool) {
    forall a, b, c :: before(a, b) && before(b, c) ==> before(a, c)
  }

  /** Every element may precede its successor. */
  ghost predicate SortedBy<T>(xs: seq<T>, before: (T, T) -> bool) {
    forall i :: 0 <= i < |xs| - 1 ==> before(xs[i], xs[i + 1])
  }

  lemma {:induction false} InsertPermutation<T>(x: T, ys: seq<T>, before: (T, T) -> bool)
    ensures multiset(Insert(x, ys, before)) == multiset(ys) + multiset{x}
  {
    if ys != [] && !before(x, ys[0]) {
      var rest := Insert(x, ys[1..], before);
      InsertPermutation(x, ys[1..], before);
      assert Insert(x, ys, before) == [ys[0]] + rest;
      assert multiset([ys[0]] + rest) == multiset{ys[0]} + multiset(rest);
      assert ys == [ys[0]] + ys[1..];
      assert multiset(ys) == multiset{ys[0]} + multiset(ys[1..]);
    }
  }

  /** The sorted copy is a permutation of the input. */
  lemma {:induction false} SortPermutation<T>(xs: seq<T>, before: (T, T) -> bool)
    ensures multiset(SortBy(xs, before)) == multiset(xs)
  {
    if xs != [] {
      SortPermutation(xs[1..], before);
      InsertPermutation(xs[0], SortBy(xs[1..], before), before);
      assert xs == [xs[0]] + xs[1..];
    }
  }

  lemma {:induction false} InsertSorted<T(!new)>(x: T, ys: seq<T>, before: (T, T) -> bool)
    requires Total(before) && SortedBy(ys, before)
    ensures SortedBy(Insert(x, ys, before), before)
    ensures Insert(x, ys, before) != []
    ensures Insert(x, ys, before)[0] == x || (ys != [] && Insert(x, ys, before)[0] == ys[0])
  {
    if ys != [] && !before(x, ys[0]) {
      InsertSorted(x, ys[1..], before);
      var rest := Insert(x, ys[1..], before);
      assert before(ys[0], x);
      assert |ys| > 1 ==> before(ys[0], ys[1]);
      assert before(ys[0], rest[0]);
    }
  }

  /** With a comparator that orders any two elements one way or the other,
      the copy is sorted. */
  lemma {:induction false} SortSorted<T(!new)>(xs: seq<T>, before: (T, T) -> bool)
    requires Total(before)
    ensures SortedBy(SortBy(xs, before), before)
  {
    if xs != [] {
      SortSorted(xs[1..], before);
      InsertSorted(xs[0], SortBy(xs[1..], before), before);
    }
  }

  /** In a sorted sequence under a transitive comparator, the first element
      may precede every element. */
  lemma {:induction false} SortedFirst<T(!new)>(xs: seq<T>, before: (T, T) -> bool, k: nat)
    requires Total(before) && Transitive(before) && SortedBy(xs, before)
    requires k < |xs|
    ensures before(xs[0], xs[k])
  {
    if k > 0 {
      SortedFirst(xs, before, k - 1);
    }
  }

  /** In a sorted sequence under a total, transitive comparator, every
      element may precede every later one. */
  lemma {:induction false} SortedPair<T(!new)>(xs: seq<T>, before: (T, T) -> bool, i: nat, j: nat)
    requires Total(before) && Transitive(before) && SortedBy(xs, before)
    requires i <= j < |xs|
    ensures before(xs[i], xs[j])
    decreases j - i
  {
    if i < j {
      SortedPair(xs, before, i, j - 1);
      assert before(xs[j - 1], xs[j]);
    }
  }

  /** Lexicographic three-way comparison: -1, 0 or 1, with a proper prefix
      ordered first. */
  function LexCompare(a: seq<int>, b: seq<int>): (r: int)
    ensures -1 <= r <= 1
  {
    if a == [] && b == [] then 0
    else if a == [] then -1
    else if b == [] then 1
    else if a[0] < b[0] then -1
    else if a[0] > b[0] then 1
    else LexCompare(a[1..], b[1..])
  }

  /** Swapping the arguments flips the sign, and only equal sequences
      compare equal. */
  lemma {:induction false} LexCompareAntisymmetric(a: seq<int>, b: seq<int>)
    ensures LexCompare(a, b) == -LexCompare(b, a)
    ensures LexCompare(a, b) == 0 <==> a == b
  {
    if a != [] && b != [] && a[0] == b[0] {
      LexCompareAntisymmetric(a[1..], b[1..]);
      assert a == [a[0]] + a[1..] && b == [b[0]] + b[1..];
    }
  }

  lemma {:induction false} LexCompareTransitive(a: seq<int>, b: seq<int>, c: seq<int>)
    requires LexCompare(a, b) <= 0 && LexCompare(b, c) <= 0
    ensures LexCompare(a, c) <= 0
  {
    if a != [] && b != [] && c != [] && a[0] == b[0] == c[0] {
      LexCompareTransitive(a[1..], b[1..], c[1..]);
    }
  }
}
