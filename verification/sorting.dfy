/** Comparator-driven stable sorting on immutable sequences.

    `Array.prototype.sort` (stable since ECMAScript 2019) and the store's
    `orderBy` are both modelled by `SortBy`: a stable insertion sort that
    places `b` before `a` exactly when the comparator says `cmp(a, b) > 0`.
    The input sequence is a value, so sorting never changes it. */
module Sorting {

  /** Inserts `x` into `s` in front of the first element it does not compare
      greater than. */
  function Insert<T(==)>(x: T, s: seq<T>, cmp: (T, T) -> real): (r: seq<T>)
    ensures multiset(r) == multiset(s) + multiset{x}
    ensures |r| == |s| + 1
    decreases |s|
  {
    if |s| == 0 then [x]
    else
      assert s == [s[0]] + s[1..];
      if cmp(x, s[0]) > 0.0 then [s[0]] + Insert(x, s[1..], cmp)
      else [x] + s
  }

  /** Stable insertion sort under the comparator `cmp`. */
  function SortBy<T(==)>(s: seq<T>, cmp: (T, T) -> real): (r: seq<T>)
    ensures multiset(r) == multiset(s)
    ensures |r| == |s|
    decreases |s|
  {
    if |s| == 0 then []
    else
      assert s == [s[0]] + s[1..];
      Insert(s[0], SortBy(s[1..], cmp), cmp)
  }

  /** `s` is in non-decreasing order of `key`. */
  ghost predicate SortedByKey<T>(s: seq<T>, key: T -> real) {
    forall i, j :: 0 <= i < j < |s| ==> key(s[i]) <= key(s[j])
  }

  /** On the elements of `s`, the comparator is the difference of keys, as
      in `(a, b) => a.k - b.k` (or `b.k - a.k` with a negated key). */
  ghost predicate ComparesByKey<T>(s: seq<T>, cmp: (T, T) -> real, key: T -> real) {
    forall a, b :: a in s && b in s ==> cmp(a, b) == key(a) - key(b)
  }

  lemma {:induction false} InsertSorted<T>(x: T, s: seq<T>, cmp: (T, T) -> real, key: T -> real)
    requires SortedByKey(s, key)
    requires forall b :: b in s ==> cmp(x, b) == key(x) - key(b)
    ensures SortedByKey(Insert(x, s, cmp), key)
    decreases |s|
  {
    if |s| > 0 {
      var r := Insert(x, s, cmp);
      if cmp(x, s[0]) > 0.0 {
        var t := Insert(x, s[1..], cmp);
        assert SortedByKey(s[1..], key) by {
          forall i, j | 0 <= i < j < |s[1..]| ensures key(s[1..][i]) <= key(s[1..][j]) {
            assert s[1..][i] == s[i + 1] && s[1..][j] == s[j + 1];
          }
        }
        InsertSorted(x, s[1..], cmp, key);
        assert r == [s[0]] + t;
        forall i, j | 0 <= i < j < |r| ensures key(r[i]) <= key(r[j]) {
          if i == 0 {
            assert r[j] == t[j - 1];
            assert r[j] in multiset(t);
            if r[j] != x {
              assert r[j] in multiset(s[1..]);
              var k :| 0 <= k < |s[1..]| && s[1..][k] == r[j];
              assert s[k + 1] == r[j];
            }
          } else {
            assert r[i] == t[i - 1] && r[j] == t[j - 1];
          }
        }
      } else {
        assert r == [x] + s;
        forall i, j | 0 <= i < j < |r| ensures key(r[i]) <= key(r[j]) {
          if i == 0 {
            assert r[j] == s[j - 1];
            assert key(s[0]) <= key(s[j - 1]);
          } else {
            assert r[i] == s[i - 1] && r[j] == s[j - 1];
          }
        }
      }
    }
  }

  /** When the comparator is a difference of keys on the input, the sorted
      result is ordered by that key. */
  lemma {:induction false} SortByKeySorted<T>(s: seq<T>, cmp: (T, T) -> real, key: T -> real)
    requires ComparesByKey(s, cmp, key)
    ensures SortedByKey(SortBy(s, cmp), key)
    decreases |s|
  {
    if |s| > 0 {
      var tail := SortBy(s[1..], cmp);
      assert ComparesByKey(s[1..], cmp, key) by {
        forall a, b | a in s[1..] && b in s[1..] ensures cmp(a, b) == key(a) - key(b) {
          assert a in s && b in s;
        }
      }
      SortByKeySorted(s[1..], cmp, key);
      forall b | b in tail ensures cmp(s[0], b) == key(s[0]) - key(b) {
        assert b in multiset(tail);
        assert b in multiset(s[1..]);
        assert b in s[1..];
      }
      InsertSorted(s[0], tail, cmp, key);
    }
  }

  /** The first element of a key-sorted sequence has the least key of all its
      elements. */
  lemma HeadIsLeast<T>(s: seq<T>, key: T -> real, b: T)
    requires |s| > 0 && SortedByKey(s, key) && b in s
    ensures key(s[0]) <= key(b)
  {
    var j :| 0 <= j < |s| && s[j] == b;
    if j > 0 {
      assert key(s[0]) <= key(s[j]);
    }
  }

  /** A comparator that reports every pair of elements as tied leaves the
      sequence as it is: the sort is stable. */
  lemma {:induction false} SortByAllTied<T>(s: seq<T>, cmp: (T, T) -> real)
    requires forall a, b :: a in s && b in s ==> cmp(a, b) == 0.0
    ensures SortBy(s, cmp) == s
    decreases |s|
  {
    if |s| > 0 {
      assert forall a, b :: a in s[1..] && b in s[1..] ==> a in s && b in s;
      SortByAllTied(s[1..], cmp);
      if |s| > 1 {
        assert s[1] == s[1..][0];
        assert cmp(s[0], s[1]) == 0.0;
      }
      assert [s[0]] + s[1..] == s;
    }
  }
}
