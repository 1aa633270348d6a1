/**
 * Python's `list.sort(key=...)` as the scheduler uses it: a STABLE sort on
 * keys that are pairs of integers compared lexicographically (the way Python
 * compares 2-tuples). It is modelled as a functional insertion sort; the
 * lemmas below show that it is sorted, a permutation, stable, and that its
 * head is the first minimum of the input.
 */
module Sorting {

  /** A sort key; `(a, b)` is compared first on `a`, then on `b`. */
  type Key = (int, int)

  predicate KeyLe(a: Key, b: Key) {
    a.0 < b.0 || (a.0 == b.0 && a.1 <= b.1)
  }

  predicate SortedBy<T>(s: seq<T>, key: T -> Key) {
    forall i, j :: 0 <= i < j < |s| ==> KeyLe(key(s[i]), key(s[j]))
  }

  /** `f` takes a different value on every two positions of `s`. */
  predicate DistinctBy<T>(s: seq<T>, f: T -> int) {
    forall i, j :: 0 <= i < j < |s| ==> f(s[i]) != f(s[j])
  }

  /** The elements of `s` whose key is `k`, in their order in `s`. */
  function WithKey<T>(s: seq<T>, key: T -> Key, k: Key): seq<T> {
    if s == [] then []
    else (if key(s[0]) == k then [s[0]] else []) + WithKey(s[1..], key, k)
  }

  /** Inserts `x` in front of the first element whose key is not below its own. */
  function Insert<T>(x: T, s: seq<T>, key: T -> Key): (r: seq<T>)
    ensures multiset(r) == multiset(s) + multiset{x}
    ensures |r| == |s| + 1
  {
    if s == [] || KeyLe(key(x), key(s[0])) then [x] + s
    else
      assert s == [s[0]] + s[1..];
      [s[0]] + Insert(x, s[1..], key)
  }

  function SortBy<T>(s: seq<T>, key: T -> Key): (r: seq<T>)
    ensures multiset(r) == multiset(s)
    ensures |r| == |s|
  {
    if s == [] then []
    else
      assert s == [s[0]] + s[1..];
      Insert(s[0], SortBy(s[1..], key), key)
  }

  lemma InsertSorted<T>(x: T, s: seq<T>, key: T -> Key)
    requires SortedBy(s, key)
    ensures SortedBy(Insert(x, s, key), key)
  {
    if s != [] && !KeyLe(key(x), key(s[0])) {
      var t := s[1..];
      InsertSorted(x, t, key);
      var r := Insert(x, t, key);
      forall j | 0 <= j < |r|
        ensures KeyLe(key(s[0]), key(r[j]))
      {
        assert r[j] in multiset(r);
        if r[j] != x {
          assert r[j] in multiset(t);
          var m :| 0 <= m < |t| && t[m] == r[j];
          assert s[m + 1] == r[j];
        }
      }
    }
  }

  /** The result is ordered by key: Python's sort yields a sorted list. */
  lemma {:induction false} SortBySorted<T>(s: seq<T>, key: T -> Key)
    ensures SortedBy(SortBy(s, key), key)
  {
    if s != [] {
      SortBySorted(s[1..], key);
      InsertSorted(s[0], SortBy(s[1..], key), key);
    }
  }

  lemma InsertHead<T>(x: T, s: seq<T>, key: T -> Key)
    ensures Insert(x, s, key)[0] == if s == [] || KeyLe(key(x), key(s[0])) then x else s[0]
  {
  }

  /** `s[j]` has a minimal key, and every element before it has a strictly larger one. */
  predicate IsFirstMin<T>(s: seq<T>, key: T -> Key, j: int) {
    0 <= j < |s|
    && (forall k :: 0 <= k < |s| ==> KeyLe(key(s[j]), key(s[k])))
    && (forall k :: 0 <= k < j ==> !KeyLe(key(s[k]), key(s[j])))
  }

  /**
   * The head of the sorted sequence is the FIRST element of the input
   * whose key is minimal.
   */
  lemma {:induction false} SortByHead<T>(s: seq<T>, key: T -> Key)
    requires s != []
    ensures exists j :: IsFirstMin(s, key, j) && SortBy(s, key)[0] == s[j]
  {
    var rest := s[1..];
    if rest == [] {
      assert IsFirstMin(s, key, 0);
    } else {
      SortByHead(rest, key);
      var t := SortBy(rest, key);
      assert SortBy(s, key) == Insert(s[0], t, key);
      var j' :| IsFirstMin(rest, key, j') && t[0] == rest[j'];
      InsertHead(s[0], t, key);
      if KeyLe(key(s[0]), key(t[0])) {
        FirstMinFront(s, key, j');
      } else {
        FirstMinLater(s, key, j');
      }
    }
  }

  lemma FirstMinFront<T>(s: seq<T>, key: T -> Key, j': int)
    requires |s| > 1 && IsFirstMin(s[1..], key, j')
    requires KeyLe(key(s[0]), key(s[1..][j']))
    ensures IsFirstMin(s, key, 0)
  {
    forall k | 0 < k < |s|
      ensures KeyLe(key(s[0]), key(s[k]))
    {
      assert s[k] == s[1..][k - 1];
    }
  }

  lemma FirstMinLater<T>(s: seq<T>, key: T -> Key, j': int)
    requires |s| > 1 && IsFirstMin(s[1..], key, j')
    requires !KeyLe(key(s[0]), key(s[1..][j']))
    ensures IsFirstMin(s, key, j' + 1)
  {
    forall k | 0 < k < |s|
      ensures KeyLe(key(s[j' + 1]), key(s[k]))
    {
      assert s[k] == s[1..][k - 1];
    }
    forall k | 0 < k < j' + 1
      ensures !KeyLe(key(s[k]), key(s[j' + 1]))
    {
      assert s[k] == s[1..][k - 1];
    }
  }

  lemma {:induction false} InsertWithKey<T>(x: T, s: seq<T>, key: T -> Key, k: Key)
    requires SortedBy(s, key)
    ensures WithKey(Insert(x, s, key), key, k)
         == (if key(x) == k then [x] else []) + WithKey(s, key, k)
  {
    if s == [] || KeyLe(key(x), key(s[0])) {
      assert ([x] + s)[1..] == s;
    } else {
      var t := s[1..];
      InsertWithKey(x, t, key, k);
      var r := [s[0]] + Insert(x, t, key);
      assert r[1..] == Insert(x, t, key);
      assert s == [s[0]] + t;
    }
  }

  /**
   * Stability: for every key value, the elements carrying that key appear in
   * the sorted sequence in the same order as in the input.
   */
  lemma {:induction false} SortByStable<T>(s: seq<T>, key: T -> Key, k: Key)
    ensures WithKey(SortBy(s, key), key, k) == WithKey(s, key, k)
  {
    if s != [] {
      SortByStable(s[1..], key, k);
      SortBySorted(s[1..], key);
      InsertWithKey(s[0], SortBy(s[1..], key), key, k);
    }
  }

  lemma {:induction false} InsertDistinct<T>(x: T, s: seq<T>, key: T -> Key, f: T -> int)
    requires DistinctBy(s, f)
    requires forall m :: 0 <= m < |s| ==> f(s[m]) != f(x)
    ensures DistinctBy(Insert(x, s, key), f)
  {
    if s == [] || KeyLe(key(x), key(s[0])) {
      ConsDistinct(x, s, f);
    } else {
      var t := s[1..];
      InsertDistinct(x, t, key, f);
      var r := Insert(x, t, key);
      forall j | 0 <= j < |r|
        ensures f(r[j]) != f(s[0])
      {
        assert r[j] in multiset(r);
        if r[j] != x {
          assert r[j] in multiset(t);
          var m :| 0 <= m < |t| && t[m] == r[j];
          assert s[m + 1] == r[j];
        }
      }
      ConsDistinct(s[0], r, f);
    }
  }

  /** A head whose `f` differs from every later element's keeps `f` distinct. */
  lemma ConsDistinct<T>(y: T, t: seq<T>, f: T -> int)
    requires DistinctBy(t, f)
    requires forall m :: 0 <= m < |t| ==> f(t[m]) != f(y)
    ensures DistinctBy([y] + t, f)
  {
    var r := [y] + t;
    forall i, j | 0 <= i < j < |r|
      ensures f(r[i]) != f(r[j])
    {
      assert r[j] == t[j - 1];
      if i > 0 {
        assert r[i] == t[i - 1];
      }
    }
  }

  /** Sorting keeps a property "`f` is different at every two positions" (distinct pids). */
  lemma {:induction false} SortByDistinct<T>(s: seq<T>, key: T -> Key, f: T -> int)
    requires DistinctBy(s, f)
    ensures DistinctBy(SortBy(s, key), f)
  {
    if s != [] {
      var t := SortBy(s[1..], key);
      SortByDistinct(s[1..], key, f);
      forall m | 0 <= m < |t|
        ensures f(t[m]) != f(s[0])
      {
        assert t[m] in multiset(s[1..]);
        var n :| 0 <= n < |s[1..]| && s[1..][n] == t[m];
        assert s[n + 1] == t[m];
      }
      InsertDistinct(s[0], t, key, f);
    }
  }
}
