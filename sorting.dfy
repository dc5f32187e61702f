/**
 * Python's stable `sort`/`sorted` with a key, as used on a row's tier ladder and on the
 * rows of a price-change group. Keys here are pairs compared lexicographically.
 */
module Sorting {

  /** A sort key: `(major, minor)` compared lexicographically, as Python compares tuples. */
  datatype SortKey = SortKey(major: int, minor: real)

  predicate KeyLe(a: SortKey, b: SortKey) {
    a.major < b.major || (a.major == b.major && a.minor <= b.minor)
  }

  /** `s` is in ascending key order. */
  ghost predicate SortedBy<T>(key: T -> SortKey, s: seq<T>) {
    forall i, j :: 0 <= i < j < |s| ==> KeyLe(key(s[i]), key(s[j]))
  }

  /** Inserts `x` before the first element whose key is not below `x`'s key. */
  function Insert<T>(key: T -> SortKey, x: T, s: seq<T>): (r: seq<T>)
    ensures |r| == |s| + 1
  {
    if s == [] || KeyLe(key(x), key(s[0])) then [x] + s else [s[0]] + Insert(key, x, s[1..])
  }

  /** A stable sort by `key`: the model of `sorted(s, key=key)` and `s.sort(key=key)`. */
  function SortBy<T>(key: T -> SortKey, s: seq<T>): (r: seq<T>)
    ensures |r| == |s|
  {
    if s == [] then [] else Insert(key, s[0], SortBy(key, s[1..]))
  }

  /** The elements of `s` whose key is `k`, in order. */
  function WithKey<T>(key: T -> SortKey, k: SortKey, s: seq<T>): (r: seq<T>)
    ensures |r| <= |s|
    ensures forall i :: 0 <= i < |r| ==> key(r[i]) == k
  {
    if s == [] then [] else (if key(s[0]) == k then [s[0]] else []) + WithKey(key, k, s[1..])
  }

  /** A sorted sequence stays sorted without its first element. */
  lemma SortedTail<T>(key: T -> SortKey, s: seq<T>)
    requires s != [] && SortedBy(key, s)
    ensures SortedBy(key, s[1..])
  {
    forall i, j | 0 <= i < j < |s[1..]| ensures KeyLe(key(s[1..][i]), key(s[1..][j])) {
      assert s[1..][i] == s[i + 1] && s[1..][j] == s[j + 1];
    }
  }

  lemma {:induction false} InsertPermutes<T>(key: T -> SortKey, x: T, s: seq<T>)
    ensures multiset(Insert(key, x, s)) == multiset(s) + multiset{x}
  {
    if s != [] && !KeyLe(key(x), key(s[0])) {
      InsertPermutes(key, x, s[1..]);
      assert s == [s[0]] + s[1..];
    }
  }

  /** A lower bound on the keys of `x` and of `s` bounds the keys after insertion. */
  lemma {:induction false} InsertBounded<T>(key: T -> SortKey, b: SortKey, x: T, s: seq<T>)
    requires KeyLe(b, key(x)) && forall i :: 0 <= i < |s| ==> KeyLe(b, key(s[i]))
    ensures forall i :: 0 <= i < |Insert(key, x, s)| ==> KeyLe(b, key(Insert(key, x, s)[i]))
  {
    if s != [] && !KeyLe(key(x), key(s[0])) {
      InsertBounded(key, b, x, s[1..]);
      var r := Insert(key, x, s);
      forall i | 0 < i < |r| ensures KeyLe(b, key(r[i])) {
        assert r[i] == Insert(key, x, s[1..])[i - 1];
      }
    }
  }

  lemma {:induction false} InsertSorted<T>(key: T -> SortKey, x: T, s: seq<T>)
    requires SortedBy(key, s)
    ensures SortedBy(key, Insert(key, x, s))
  {
    var r := Insert(key, x, s);
    if s != [] && !KeyLe(key(x), key(s[0])) {
      SortedTail(key, s);
      InsertSorted(key, x, s[1..]);
      var rest := Insert(key, x, s[1..]);
      assert forall i :: 0 <= i < |s[1..]| ==> s[1..][i] == s[i + 1];
      InsertBounded(key, key(s[0]), x, s[1..]);
      forall i, j | 0 <= i < j < |r| ensures KeyLe(key(r[i]), key(r[j])) {
        assert r[j] == rest[j - 1];
        if i > 0 {
          assert r[i] == rest[i - 1];
        }
      }
    } else {
      forall i, j | 0 <= i < j < |r| ensures KeyLe(key(r[i]), key(r[j])) {
        assert r[j] == s[j - 1];
        if i > 0 {
          assert r[i] == s[i - 1];
        }
      }
    }
  }

  /** The result is sorted by key and has exactly the elements of the input. */
  lemma {:induction false} SortBySorted<T>(key: T -> SortKey, s: seq<T>)
    ensures SortedBy(key, SortBy(key, s))
    ensures multiset(SortBy(key, s)) == multiset(s)
  {
    if s != [] {
      SortBySorted(key, s[1..]);
      InsertSorted(key, s[0], SortBy(key, s[1..]));
      InsertPermutes(key, s[0], SortBy(key, s[1..]));
      assert s == [s[0]] + s[1..];
    }
  }

  lemma {:induction false} WithKeyInsert<T>(key: T -> SortKey, k: SortKey, x: T, s: seq<T>)
    requires SortedBy(key, s)
    ensures WithKey(key, k, Insert(key, x, s)) == (if key(x) == k then [x] else []) + WithKey(key, k, s)
  {
    if s != [] && !KeyLe(key(x), key(s[0])) {
      SortedTail(key, s);
      WithKeyInsert(key, k, x, s[1..]);
      assert Insert(key, x, s)[1..] == Insert(key, x, s[1..]);
      // s[0] has a key strictly below x's, so only one of them can carry key k
      assert key(s[0]) != key(x);
    }
  }

  /**
   * Stability: for every key, the elements carrying that key keep their relative order.
   * Together with `SortBySorted` this pins the result down completely.
   */
  lemma {:induction false} SortByStable<T>(key: T -> SortKey, k: SortKey, s: seq<T>)
    ensures WithKey(key, k, SortBy(key, s)) == WithKey(key, k, s)
  {
    if s != [] {
      SortByStable(key, k, s[1..]);
      SortBySorted(key, s[1..]);
      WithKeyInsert(key, k, s[0], SortBy(key, s[1..]));
    }
  }

  /** Sorting input that is already sorted changes nothing. */
  lemma {:induction false} SortBySortedInput<T>(key: T -> SortKey, s: seq<T>)
    requires SortedBy(key, s)
    ensures SortBy(key, s) == s
  {
    if s != [] {
      SortedTail(key, s);
      SortBySortedInput(key, s[1..]);
      if |s| > 1 {
        assert KeyLe(key(s[0]), key(s[1]));
      }
    }
  }
}
