/** Python's `sorted(xs, key=...)` and `xs.sort(key=...)` for the two-part keys the
    core sorts by (`(start, pitch)`): a stable sort, written as insertion sort. */
module Sorting {

  /** A key `(major, minor)`, compared lexicographically as Python compares tuples. */
  datatype Key = Key(major: int, minor: int)

  predicate KeyLe(a: Key, b: Key) {
    a.major < b.major || (a.major == b.major && a.minor <= b.minor)
  }

  /** Each key is at most the next one (by transitivity, at most every later one:
      see `SortedPairwise`). */
  predicate SortedBy<T>(s: seq<T>, key: T -> Key) {
    forall i :: 0 < i < |s| ==> KeyLe(key(s[i - 1]), key(s[i]))
  }

  lemma {:induction false} SortedPairwise<T>(s: seq<T>, key: T -> Key, i: int, j: int)
    requires SortedBy(s, key) && 0 <= i < j < |s|
    ensures KeyLe(key(s[i]), key(s[j]))
  {
    if i + 1 < j {
      SortedPairwise(s, key, i, j - 1);
    }
  }

  /** Inserts `x` after every element whose key is not greater than its own. The
      last element of the result is `x` or the last element of `t`. */
  function Insert<T>(t: seq<T>, x: T, key: T -> Key): (r: seq<T>)
    requires SortedBy(t, key)
    ensures |r| == |t| + 1
    ensures SortedBy(r, key)
    ensures r[|r| - 1] == x || (t != [] && r[|r| - 1] == t[|t| - 1])
  {
    if t == [] || KeyLe(key(t[|t| - 1]), key(x)) then t + [x]
    else
      var last := t[|t| - 1];
      var front := t[..|t| - 1];
      var r' := Insert(front, x, key);
      assert KeyLe(key(r'[|r'| - 1]), key(last)) by {
        if r'[|r'| - 1] != x {
          assert r'[|r'| - 1] == t[|t| - 2];
        }
      }
      r' + [last]
  }

  /** Inserting adds exactly `x` to the elements. */
  lemma {:induction false} InsertPermutation<T>(t: seq<T>, x: T, key: T -> Key)
    requires SortedBy(t, key)
    ensures multiset(Insert(t, x, key)) == multiset(t) + multiset{x}
  {
    if t != [] && !KeyLe(key(t[|t| - 1]), key(x)) {
      var front := t[..|t| - 1];
      InsertPermutation(front, x, key);
      assert t == front + [t[|t| - 1]];
    }
  }

  /** `sorted(s, key=key)`. */
  function SortBy<T>(s: seq<T>, key: T -> Key): (r: seq<T>)
    ensures SortedBy(r, key)
    ensures |r| == |s|
  {
    if s == [] then []
    else Insert(SortBy(s[..|s| - 1], key), s[|s| - 1], key)
  }

  /** The sort keeps the elements: the result is a permutation of the input. */
  lemma {:induction false} SortByPermutation<T>(s: seq<T>, key: T -> Key)
    ensures multiset(SortBy(s, key)) == multiset(s)
  {
    if s != [] {
      var front := s[..|s| - 1];
      SortByPermutation(front, key);
      InsertPermutation(SortBy(front, key), s[|s| - 1], key);
      assert s == front + [s[|s| - 1]];
    }
  }

  /** The elements of `s` whose key is `k`, in their order in `s`. */
  function WithKey<T>(s: seq<T>, key: T -> Key, k: Key): seq<T>
  {
    if s == [] then []
    else WithKey(s[..|s| - 1], key, k) + (if key(s[|s| - 1]) == k then [s[|s| - 1]] else [])
  }

  lemma {:induction false} WithKeyAppend<T>(a: seq<T>, b: seq<T>, key: T -> Key, k: Key)
    ensures WithKey(a + b, key, k) == WithKey(a, key, k) + WithKey(b, key, k)
  {
    if b != [] {
      assert (a + b)[..|a + b| - 1] == a + b[..|b| - 1];
      WithKeyAppend(a, b[..|b| - 1], key, k);
    } else {
      assert a + b == a;
    }
  }

  lemma WithKeyOne<T>(y: T, key: T -> Key, k: Key)
    ensures WithKey([y], key, k) == if key(y) == k then [y] else []
  {
    assert [y][..0] == [];
  }

  lemma {:induction false} InsertWithKey<T>(t: seq<T>, x: T, key: T -> Key, k: Key)
    requires SortedBy(t, key)
    ensures WithKey(Insert(t, x, key), key, k) == WithKey(t, key, k) + WithKey([x], key, k)
  {
    if t == [] || KeyLe(key(t[|t| - 1]), key(x)) {
      WithKeyAppend(t, [x], key, k);
    } else {
      var last := t[|t| - 1];
      var front := t[..|t| - 1];
      assert t == front + [last];
      var r' := Insert(front, x, key);
      assert Insert(t, x, key) == r' + [last];
      WithKeyOne(x, key, k);
      WithKeyOne(last, key, k);
      calc {
        WithKey(Insert(t, x, key), key, k);
      ==
        WithKey(r' + [last], key, k);
      == { WithKeyAppend(r', [last], key, k); }
        WithKey(r', key, k) + WithKey([last], key, k);
      == { InsertWithKey(front, x, key, k); }
        WithKey(front, key, k) + WithKey([x], key, k) + WithKey([last], key, k);
      == { assert key(last) != key(x); }
        WithKey(front, key, k) + WithKey([last], key, k) + WithKey([x], key, k);
      == { WithKeyAppend(front, [last], key, k); }
        WithKey(t, key, k) + WithKey([x], key, k);
      }
    }
  }

  /** The sort is stable: elements with equal keys keep their input order. */
  lemma {:induction false} SortByStable<T>(s: seq<T>, key: T -> Key, k: Key)
    ensures WithKey(SortBy(s, key), key, k) == WithKey(s, key, k)
  {
    if s != [] {
      var front := s[..|s| - 1];
      SortByStable(front, key, k);
      InsertWithKey(SortBy(front, key), s[|s| - 1], key, k);
      WithKeyOne(s[|s| - 1], key, k);
    }
  }

  /** Dropping the last element keeps a sequence sorted, and that element is not
      smaller than the new last one. */
  lemma SortedFront<T>(s: seq<T>, key: T -> Key)
    requires s != [] && SortedBy(s, key)
    ensures SortedBy(s[..|s| - 1], key)
    ensures |s| == 1 || KeyLe(key(s[|s| - 2]), key(s[|s| - 1]))
  {
    var front := s[..|s| - 1];
    forall i | 0 < i < |front| ensures KeyLe(key(front[i - 1]), key(front[i])) {
      assert front[i - 1] == s[i - 1] && front[i] == s[i];
    }
  }

  /** An element not smaller than the last goes to the end. */
  lemma InsertAtEnd<T>(t: seq<T>, x: T, key: T -> Key)
    requires SortedBy(t, key)
    requires t == [] || KeyLe(key(t[|t| - 1]), key(x))
    ensures Insert(t, x, key) == t + [x]
  {
  }

  /** Sorting an already sorted sequence returns it unchanged. */
  lemma {:induction false} SortBySorted<T>(s: seq<T>, key: T -> Key)
    requires SortedBy(s, key)
    ensures SortBy(s, key) == s
  {
    if s != [] {
      var front, last := s[..|s| - 1], s[|s| - 1];
      SortedFront(s, key);
      SortBySorted(front, key);
      assert front != [] ==> front[|front| - 1] == s[|s| - 2];
      InsertAtEnd(front, last, key);
      assert SortBy(s, key) == Insert(front, last, key);
      assert s == front + [last];
    }
  }
}
