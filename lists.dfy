/**
 * The array operations the JavaScript code relies on, over sequences:
 * `filter` (Keep), `filter(...).length` (Count) and `findIndex` (IndexWhere).
 */
module Lists {

  /** `s.filter(p)`: the elements of `s` that satisfy `p`, in their original order. */
  function Keep<T(!new)>(s: seq<T>, p: T -> bool): (r: seq<T>)
    ensures |r| <= |s|
    ensures forall x :: x in r <==> x in s && p(x)
    ensures forall i :: 0 <= i < |r| ==> p(r[i])
    ensures multiset(r) <= multiset(s)
  {
    if s == [] then []
    else if p(s[0]) then
      assert s == [s[0]] + s[1..];
      [s[0]] + Keep(s[1..], p)
    else
      assert s == [s[0]] + s[1..];
      Keep(s[1..], p)
  }

  /** `s.filter(p).length`. */
  function Count<T(!new)>(s: seq<T>, p: T -> bool): (n: nat)
    ensures n <= |s|
    ensures n == 0 <==> forall i :: 0 <= i < |s| ==> !p(s[i])
  {
    var r := Keep(s, p);
    assert r == [] ==> forall i :: 0 <= i < |s| ==> !p(s[i]) by {
      if r == [] {
        forall i | 0 <= i < |s| ensures !p(s[i]) {
          assert s[i] in s;
        }
      }
    }
    assert r != [] ==> exists i :: 0 <= i < |s| && p(s[i]) by {
      if r != [] {
        assert r[0] in s;
        var i :| 0 <= i < |s| && s[i] == r[0];
        assert p(s[i]);
      }
    }
    |r|
  }

  /** Filtering is idempotent: a second pass with the same test removes nothing more. */
  lemma {:induction false} KeepTwice<T(!new)>(s: seq<T>, p: T -> bool)
    ensures Keep(Keep(s, p), p) == Keep(s, p)
  {
    if s != [] {
      KeepTwice(s[1..], p);
    }
  }

  /** Filtering a sequence whose every element passes the test returns it unchanged. */
  lemma {:induction false} KeepAll<T(!new)>(s: seq<T>, p: T -> bool)
    requires forall i :: 0 <= i < |s| ==> p(s[i])
    ensures Keep(s, p) == s
  {
    if s != [] {
      KeepAll(s[1..], p);
    }
  }

  /** Filtering distributes over concatenation. */
  lemma {:induction false} KeepAppend<T(!new)>(s: seq<T>, t: seq<T>, p: T -> bool)
    ensures Keep(s + t, p) == Keep(s, p) + Keep(t, p)
  {
    if s == [] {
      assert s + t == t;
    } else {
      assert (s + t)[1..] == s[1..] + t;
      KeepAppend(s[1..], t, p);
    }
  }

  /** `s.findIndex(p)`: the first index whose element satisfies `p`, or -1 when there is none. */
  function IndexWhere<T>(s: seq<T>, p: T -> bool): (i: int)
    ensures -1 <= i < |s|
    ensures i == -1 <==> forall k :: 0 <= k < |s| ==> !p(s[k])
    ensures 0 <= i ==> p(s[i]) && forall k :: 0 <= k < i ==> !p(s[k])
  {
    if s == [] then -1
    else if p(s[0]) then 0
    else
      var j := IndexWhere(s[1..], p);
      if j == -1 then -1 else j + 1
  }

  /** No element occurs twice. */
  predicate NoDuplicates<T(==)>(s: seq<T>) {
    forall i, j :: 0 <= i < j < |s| ==> s[i] != s[j]
  }

  /** Removing elements keeps a duplicate-free sequence duplicate-free. */
  lemma {:induction false} KeepNoDuplicates<T(!new)>(s: seq<T>, p: T -> bool)
    requires NoDuplicates(s)
    ensures NoDuplicates(Keep(s, p))
  {
    if s != [] {
      KeepNoDuplicates(s[1..], p);
      if p(s[0]) {
        var r := Keep(s[1..], p);
        assert forall k :: 0 <= k < |s[1..]| ==> s[1..][k] == s[k + 1] != s[0];
        assert s[0] !in r;
        forall i, j | 0 <= i < j < |[s[0]] + r|
          ensures ([s[0]] + r)[i] != ([s[0]] + r)[j]
        {
          if i == 0 {
            assert ([s[0]] + r)[j] == r[j - 1];
          }
        }
      }
    }
  }
}
