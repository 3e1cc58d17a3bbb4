/**
 * Sorting by a numeric key. pandas' `sort_values` defaults to an unstable quicksort, so the
 * contract of `SortBy` promises only what every admissible order shares: the result is a
 * permutation of the input whose keys are non-decreasing. The insertion sort below is one
 * such order. Where keys tie, it fixes an order pandas does not promise; where no two keys
 * tie, `StrictlySortedUnique` shows every admissible order is the same.
 */
module Sorting {

  ghost predicate SortedBy<T>(s: seq<T>, key: T -> real) {
    forall i, j :: 0 <= i < j < |s| ==> key(s[i]) <= key(s[j])
  }

  /** `x` placed before the first element of `s` whose key is not below its own. */
  function Insert<T>(x: T, s: seq<T>, key: T -> real): (r: seq<T>)
    ensures |r| == |s| + 1
  {
    if s == [] || key(x) <= key(s[0]) then [x] + s
    else [s[0]] + Insert(x, s[1..], key)
  }

  lemma {:induction false} InsertPermutes<T>(x: T, s: seq<T>, key: T -> real)
    ensures multiset(Insert(x, s, key)) == multiset(s) + multiset{x}
  {
    if !(s == [] || key(x) <= key(s[0])) {
      InsertPermutes(x, s[1..], key);
      assert s == [s[0]] + s[1..];
    }
  }

  lemma {:induction false} InsertSorted<T>(x: T, s: seq<T>, key: T -> real)
    requires SortedBy(s, key)
    ensures SortedBy(Insert(x, s, key), key)
  {
    if s == [] || key(x) <= key(s[0]) {
      assert forall k :: 0 <= k < |s| ==> key(x) <= key(s[k]);
      SortedCons(x, s, key);
    } else {
      var tail := s[1..];
      var rest := Insert(x, tail, key);
      InsertSorted(x, tail, key);
      InsertPermutes(x, tail, key);
      forall k | 0 <= k < |rest| ensures key(s[0]) <= key(rest[k]) {
        assert rest[k] in multiset(rest);
        if rest[k] != x {
          assert rest[k] in multiset(tail);
          var j :| 0 <= j < |tail| && tail[j] == rest[k];
          assert tail[j] == s[j + 1];
        }
      }
      SortedCons(s[0], rest, key);
    }
  }

  lemma SortedCons<T>(y: T, s: seq<T>, key: T -> real)
    requires SortedBy(s, key)
    requires forall k :: 0 <= k < |s| ==> key(y) <= key(s[k])
    ensures SortedBy([y] + s, key)
  {
    var r := [y] + s;
    forall i, j | 0 <= i < j < |r| ensures key(r[i]) <= key(r[j]) {
      if i > 0 {
        assert r[i] == s[i - 1];
      }
      assert r[j] == s[j - 1];
    }
  }

  function SortBy<T>(s: seq<T>, key: T -> real): (r: seq<T>)
    ensures multiset(r) == multiset(s)
    ensures SortedBy(r, key)
  {
    if s == [] then []
    else
      var sorted := SortBy(s[1..], key);
      InsertPermutes(s[0], sorted, key);
      InsertSorted(s[0], sorted, key);
      assert s == [s[0]] + s[1..];
      Insert(s[0], sorted, key)
  }

  ghost predicate StrictlySortedBy<T>(s: seq<T>, key: T -> real) {
    forall i, j :: 0 <= i < j < |s| ==> key(s[i]) < key(s[j])
  }

  /** Without ties, sorting has one outcome: two strictly sorted permutations of one multiset are equal. */
  lemma {:induction false} StrictlySortedUnique<T>(a: seq<T>, b: seq<T>, key: T -> real)
    requires multiset(a) == multiset(b)
    requires StrictlySortedBy(a, key) && StrictlySortedBy(b, key)
    ensures a == b
    decreases |a|
  {
    assert |a| == |multiset(a)| == |multiset(b)| == |b|;
    if a != [] {
      SameLeast(a, b, key);
      MultisetTail(a);
      MultisetTail(b);
      StrictlySortedTail(a, key);
      StrictlySortedTail(b, key);
      StrictlySortedUnique(a[1..], b[1..], key);
      assert a == [a[0]] + a[1..] && b == [b[0]] + b[1..];
    }
  }

  /** Two strictly sorted permutations of one multiset start with the same element: its least. */
  lemma SameLeast<T>(a: seq<T>, b: seq<T>, key: T -> real)
    requires a != [] && |a| == |b| && multiset(a) == multiset(b)
    requires StrictlySortedBy(a, key) && StrictlySortedBy(b, key)
    ensures a[0] == b[0]
  {
    assert a[0] in multiset(b);
    var j :| 0 <= j < |b| && b[j] == a[0];
    assert b[0] in multiset(a);
    var p :| 0 <= p < |a| && a[p] == b[0];
    if j != 0 {
      assert false;
    }
  }

  lemma MultisetTail<T>(a: seq<T>)
    requires a != []
    ensures multiset(a[1..]) == multiset(a) - multiset{a[0]}
  {
    assert a == [a[0]] + a[1..];
  }

  lemma StrictlySortedTail<T>(a: seq<T>, key: T -> real)
    requires a != [] && StrictlySortedBy(a, key)
    ensures StrictlySortedBy(a[1..], key)
  {
    assert forall k :: 0 <= k < |a| - 1 ==> a[1..][k] == a[k + 1];
  }
}
