/**
 * `Array.prototype.sort` with a comparator, as a stable insertion sort on sequences.
 * `less(a, b)` holds when the comparator puts `a` strictly before `b` (it returns a
 * negative number); elements neither of which is less than the other keep their order,
 * as in the stable sort of ECMAScript 2019. ECMAScript fixes the result only for a
 * consistent comparator (StrictWeakOrderOn); for any other the order is left to the
 * engine, and SortBy is then one admissible order, not necessarily the engine's.
 */
module Sorting {

  /** The comparator's "strictly before" relation is a strict order: irreflexive and transitive. */
  ghost predicate StrictOrder<T(!new)>(less: (T, T) -> bool) {
    && (forall a :: !less(a, a))
    && (forall a, b, c :: less(a, b) && less(b, c) ==> less(a, c))
  }

  /**
   * The comparator is consistent on the elements of `s`: "strictly before" is irreflexive
   * and transitive there, and so is "neither is before the other".
   */
  ghost predicate StrictWeakOrderOn<T>(s: seq<T>, less: (T, T) -> bool) {
    && (forall a :: a in s ==> !less(a, a))
    && (forall a, b, c :: a in s && b in s && c in s && less(a, b) && less(b, c) ==> less(a, c))
    && (forall a, b, c ::
          a in s && b in s && c in s && !less(a, b) && !less(b, a) && !less(b, c) && !less(c, b) ==>
            !less(a, c) && !less(c, a))
  }

  /** No later element is strictly before an earlier one. */
  predicate Sorted<T>(s: seq<T>, less: (T, T) -> bool) {
    forall i, j :: 0 <= i < j < |s| ==> !less(s[j], s[i])
  }

  /** Places `x` in front of the first element it is strictly before; at the end otherwise. */
  function Insert<T>(s: seq<T>, x: T, less: (T, T) -> bool): (r: seq<T>)
    ensures |r| == |s| + 1
    ensures multiset(r) == multiset(s) + multiset{x}
  {
    if s == [] then [x]
    else if less(x, s[0]) then [x] + s
    else
      assert s == [s[0]] + s[1..];
      [s[0]] + Insert(s[1..], x, less)
  }

  /** Stable insertion sort: each element in turn is inserted into the sorted prefix. */
  function SortBy<T>(s: seq<T>, less: (T, T) -> bool): (r: seq<T>)
    ensures |r| == |s|
    ensures multiset(r) == multiset(s)
  {
    if s == [] then []
    else
      assert s == s[..|s| - 1] + [s[|s| - 1]];
      Insert(SortBy(s[..|s| - 1], less), s[|s| - 1], less)
  }

  lemma {:induction false} InsertSorted<T(!new)>(s: seq<T>, x: T, less: (T, T) -> bool)
    requires StrictOrder(less)
    requires Sorted(s, less)
    ensures Sorted(Insert(s, x, less), less)
  {
    var r := Insert(s, x, less);
    if s == [] {
    } else if less(x, s[0]) {
      forall i, j | 0 <= i < j < |r| ensures !less(r[j], r[i]) {
        if i == 0 {
          // r[j] == s[j - 1]; were it before x, it would be before s[0] too
          assert r[j] == s[j - 1];
          if j - 1 > 0 {
            assert !less(s[j - 1], s[0]);
          } else {
            assert !less(s[0], s[0]);
          }
        } else {
          assert r[i] == s[i - 1] && r[j] == s[j - 1];
        }
      }
    } else {
      var t := Insert(s[1..], x, less);
      InsertSorted(s[1..], x, less);
      assert r == [s[0]] + t;
      forall i, j | 0 <= i < j < |r| ensures !less(r[j], r[i]) {
        if i == 0 {
          assert r[j] in multiset(t);
          assert r[j] in multiset(s[1..]) + multiset{x};
          if r[j] != x {
            assert r[j] in s[1..];
            var k :| 0 <= k < |s[1..]| && s[1..][k] == r[j];
            assert s[k + 1] == r[j];
          }
        } else {
          assert r[i] == t[i - 1] && r[j] == t[j - 1];
        }
      }
    }
  }

  /** The result of SortBy is ordered by a comparator that is a strict order. */
  lemma {:induction false} SortBySorted<T(!new)>(s: seq<T>, less: (T, T) -> bool)
    requires StrictOrder(less)
    ensures Sorted(SortBy(s, less), less)
  {
    if s != [] {
      SortBySorted(s[..|s| - 1], less);
      InsertSorted(SortBy(s[..|s| - 1], less), s[|s| - 1], less);
    }
  }

  /** Inserting an element that nothing in a sorted sequence follows appends it. */
  lemma {:induction false} InsertLast<T>(s: seq<T>, x: T, less: (T, T) -> bool)
    requires forall i :: 0 <= i < |s| ==> !less(x, s[i])
    ensures Insert(s, x, less) == s + [x]
  {
    if s != [] {
      InsertLast(s[1..], x, less);
      assert [s[0]] + (s[1..] + [x]) == s + [x];
    }
  }

  /** Sorting an already sorted sequence leaves it as it is, so sorting twice equals sorting once. */
  lemma {:induction false} SortBySortedIdentity<T>(s: seq<T>, less: (T, T) -> bool)
    requires Sorted(s, less)
    ensures SortBy(s, less) == s
  {
    if s != [] {
      var init := s[..|s| - 1];
      assert Sorted(init, less) by {
        forall i, j | 0 <= i < j < |init| ensures !less(init[j], init[i]) {
          assert init[i] == s[i] && init[j] == s[j];
        }
      }
      SortBySortedIdentity(init, less);
      InsertLast(init, s[|s| - 1], less);
      assert init + [s[|s| - 1]] == s;
    }
  }

  /** Under a strict order, sorting twice gives the same list as sorting once. */
  lemma SortByIdempotent<T(!new)>(s: seq<T>, less: (T, T) -> bool)
    requires StrictOrder(less)
    ensures SortBy(SortBy(s, less), less) == SortBy(s, less)
  {
    SortBySorted(s, less);
    SortBySortedIdentity(SortBy(s, less), less);
  }
}
