/** Kotlin's `MutableList.sortByDescending(selector)`, which hands the list to
    `java.util.Collections.sort` with a descending comparator: a STABLE sort.
    It is defined here as an insertion sort and characterised by three
    lemmas: the result is ordered by descending key, is a permutation of the
    input, and keeps the input order among elements with equal keys. */
module StableSort {

  /** The selection of the elements with key `k`, one element at a time. */
  function KeyPart<T>(y: T, key: T -> int, k: int): seq<T> {
    if key(y) == k then [y] else []
  }

  /** The elements of `s` whose key is `k`, in their order in `s`. */
  function WithKey<T>(s: seq<T>, key: T -> int, k: int): seq<T> {
    if s == [] then []
    else KeyPart(s[0], key, k) + WithKey(s[1..], key, k)
  }

  predicate SortedDesc<T>(s: seq<T>, key: T -> int) {
    forall i, j :: 0 <= i < j < |s| ==> key(s[i]) >= key(s[j])
  }

  /** Places `x` in front of the first element whose key is not larger. */
  function Insert<T>(x: T, t: seq<T>, key: T -> int): (r: seq<T>)
    ensures |r| == |t| + 1
    ensures multiset(r) == multiset(t) + multiset{x}
  {
    if t == [] then [x]
    else if key(t[0]) > key(x) then
      assert t == [t[0]] + t[1..];
      [t[0]] + Insert(x, t[1..], key)
    else [x] + t
  }

  function SortDesc<T>(s: seq<T>, key: T -> int): seq<T> {
    if s == [] then [] else Insert(s[0], SortDesc(s[1..], key), key)
  }

  lemma {:induction false} InsertSorted<T>(x: T, t: seq<T>, key: T -> int)
    requires SortedDesc(t, key)
    ensures SortedDesc(Insert(x, t, key), key)
  {
    if t != [] && key(t[0]) > key(x) {
      var rest := t[1..];
      InsertSorted(x, rest, key);
      InsertBounded(x, rest, key, key(t[0]));
      var r := Insert(x, t, key);
      var tail := Insert(x, rest, key);
      assert r == [t[0]] + tail;
      forall i, j | 0 <= i < j < |r| ensures key(r[i]) >= key(r[j]) {
        assert r[j] == tail[j - 1];
        if i > 0 {
          assert r[i] == tail[i - 1];
        }
      }
    }
  }

  /** Inserting below a bound that every element respects keeps the bound. */
  lemma {:induction false} InsertBounded<T>(x: T, t: seq<T>, key: T -> int, b: int)
    requires key(x) <= b
    requires forall i :: 0 <= i < |t| ==> key(t[i]) <= b
    ensures forall i :: 0 <= i < |Insert(x, t, key)| ==> key(Insert(x, t, key)[i]) <= b
  {
    var r := Insert(x, t, key);
    if t != [] && key(t[0]) > key(x) {
      InsertBounded(x, t[1..], key, b);
      var tail := Insert(x, t[1..], key);
      assert r == [t[0]] + tail;
      forall i | 0 < i < |r| ensures key(r[i]) <= b {
        assert r[i] == tail[i - 1];
      }
    } else if t != [] {
      assert r == [x] + t;
      forall i | 0 < i < |r| ensures key(r[i]) <= b {
        assert r[i] == t[i - 1];
      }
    }
  }


  /** The sort orders by descending key. */
  lemma {:induction false} SortDescIsSorted<T>(s: seq<T>, key: T -> int)
    ensures SortedDesc(SortDesc(s, key), key)
  {
    if s != [] {
      SortDescIsSorted(s[1..], key);
      InsertSorted(s[0], SortDesc(s[1..], key), key);
    }
  }

  /** The sort neither drops, duplicates nor invents elements. */
  lemma {:induction false} SortDescIsPermutation<T>(s: seq<T>, key: T -> int)
    ensures multiset(SortDesc(s, key)) == multiset(s)
  {
    if s != [] {
      SortDescIsPermutation(s[1..], key);
      assert s == [s[0]] + s[1..];
    }
  }

  lemma WithKeyCons<T>(y: T, s: seq<T>, key: T -> int, k: int)
    ensures WithKey([y] + s, key, k) == KeyPart(y, key, k) + WithKey(s, key, k)
  {
    assert ([y] + s)[1..] == s;
  }

  lemma InsertFront<T>(x: T, t: seq<T>, key: T -> int, k: int)
    requires t == [] || key(t[0]) <= key(x)
    ensures WithKey(Insert(x, t, key), key, k)
         == KeyPart(x, key, k) + WithKey(t, key, k)
  {
    assert Insert(x, t, key) == [x] + t;
    WithKeyCons(x, t, key, k);
  }

  /** Two runs of which one is empty may be swapped. */
  lemma SwapWhenOneEmpty<T>(a: seq<T>, b: seq<T>, s: seq<T>)
    requires a == [] || b == []
    ensures a + (b + s) == b + (a + s)
  {
    if a == [] {
      assert a + (b + s) == b + s == b + (a + s);
    } else {
      assert a + (b + s) == a + s == b + (a + s);
    }
  }

  lemma InsertBehind<T>(x: T, t: seq<T>, key: T -> int, k: int)
    requires t != [] && key(t[0]) > key(x)
    requires WithKey(Insert(x, t[1..], key), key, k) == KeyPart(x, key, k) + WithKey(t[1..], key, k)
    ensures WithKey(Insert(x, t, key), key, k) == KeyPart(x, key, k) + WithKey(t, key, k)
  {
    var rest := Insert(x, t[1..], key);
    var tail := WithKey(t[1..], key, k);
    var h0 := KeyPart(t[0], key, k);
    var hx := KeyPart(x, key, k);
    assert Insert(x, t, key) == [t[0]] + rest;
    WithKeyCons(t[0], rest, key, k);
    assert WithKey(Insert(x, t, key), key, k) == h0 + (hx + tail);
    WithKeyCons(t[0], t[1..], key, k);
    assert [t[0]] + t[1..] == t;
    assert WithKey(t, key, k) == h0 + tail;
    SwapWhenOneEmpty(h0, hx, tail);
  }

  lemma {:induction false} InsertStable<T>(x: T, t: seq<T>, key: T -> int, k: int)
    ensures WithKey(Insert(x, t, key), key, k)
         == KeyPart(x, key, k) + WithKey(t, key, k)
  {
    if t == [] || key(t[0]) <= key(x) {
      InsertFront(x, t, key, k);
    } else {
      InsertStable(x, t[1..], key, k);
      InsertBehind(x, t, key, k);
    }
  }

  /** The sort is stable: for every key, the elements carrying it appear in
      the same order before and after. */
  lemma {:induction false} SortDescIsStable<T>(s: seq<T>, key: T -> int, k: int)
    ensures WithKey(SortDesc(s, key), key, k) == WithKey(s, key, k)
  {
    if s != [] {
      SortDescIsStable(s[1..], key, k);
      InsertStable(s[0], SortDesc(s[1..], key), key, k);
    }
  }

  lemma {:induction false} WithKeyAll<T>(s: seq<T>, key: T -> int, k: int)
    requires forall i :: 0 <= i < |s| ==> key(s[i]) == k
    ensures WithKey(s, key, k) == s
  {
    if s != [] {
      WithKeyAll(s[1..], key, k);
    }
  }

  /** When every key is the same, the sort leaves the list as it was. */
  lemma EqualKeysKeepOrder<T>(s: seq<T>, key: T -> int, k: int)
    requires forall i :: 0 <= i < |s| ==> key(s[i]) == k
    ensures SortDesc(s, key) == s
  {
    var r := SortDesc(s, key);
    SortDescIsPermutation(s, key);
    forall i | 0 <= i < |r| ensures key(r[i]) == k {
      assert r[i] in multiset(r);
      assert r[i] in s;
    }
    WithKeyAll(s, key, k);
    WithKeyAll(r, key, k);
    SortDescIsStable(s, key, k);
  }
}
