/** A stable sort by key, as `Array.prototype.sort` performs it (section 22.1.3.27 of
    ECMA-262, 10th edition, requires stability) and as a reference for an
    `ORDER BY` over one column. Elements are compared only through their keys, under
    a total order `le` on keys. */
module Sorting {

  /** `le` is reflexive, antisymmetric, transitive and total. */
  ghost predicate IsTotalOrder<K(!new)>(le: (K, K) -> bool) {
    (forall a :: le(a, a)) &&
    (forall a, b :: le(a, b) && le(b, a) ==> a == b) &&
    (forall a, b, c :: le(a, b) && le(b, c) ==> le(a, c)) &&
    (forall a, b :: le(a, b) || le(b, a))
  }

  /** Keys never decrease along `s`. */
  ghost predicate SortedBy<T(!new), K(!new)>(s: seq<T>, key: T -> K, le: (K, K) -> bool) {
    forall i, j :: 0 <= i < j < |s| ==> le(key(s[i]), key(s[j]))
  }

  /** The elements of `s` whose key is `k`, in their order in `s`. */
  function WithKey<T, K(==)>(s: seq<T>, key: T -> K, k: K): (r: seq<T>)
    ensures |r| <= |s|
  {
    if s == [] then []
    else WithKey(s[..|s| - 1], key, k) + (if key(s[|s| - 1]) == k then [s[|s| - 1]] else [])
  }

  /** `x` placed before the first element whose key is strictly greater than its own. */
  function Insert<T(!new), K(!new)>(s: seq<T>, x: T, key: T -> K, le: (K, K) -> bool): (r: seq<T>)
    ensures |r| == |s| + 1
  {
    if s == [] then [x]
    else if le(key(x), key(s[0])) && !le(key(s[0]), key(x)) then [x] + s
    else [s[0]] + Insert(s[1..], x, key, le)
  }

  /** Insertion sort taking the elements from first to last. */
  function SortBy<T(!new), K(!new)>(s: seq<T>, key: T -> K, le: (K, K) -> bool): (r: seq<T>)
    ensures |r| == |s|
  {
    if s == [] then [] else Insert(SortBy(s[..|s| - 1], key, le), s[|s| - 1], key, le)
  }

  lemma {:induction false} InsertPermutes<T(!new), K(!new)>(s: seq<T>, x: T, key: T -> K, le: (K, K) -> bool)
    ensures multiset(Insert(s, x, key, le)) == multiset(s) + multiset{x}
  {
    if s != [] && !(le(key(x), key(s[0])) && !le(key(s[0]), key(x))) {
      InsertPermutes(s[1..], x, key, le);
      assert s == [s[0]] + s[1..];
    }
  }

  lemma {:induction false} InsertSorted<T(!new), K(!new)>(s: seq<T>, x: T, key: T -> K, le: (K, K) -> bool)
    requires IsTotalOrder(le) && SortedBy(s, key, le)
    ensures SortedBy(Insert(s, x, key, le), key, le)
  {
    if s != [] && !(le(key(x), key(s[0])) && !le(key(s[0]), key(x))) {
      var rest := Insert(s[1..], x, key, le);
      InsertSorted(s[1..], x, key, le);
      InsertPermutes(s[1..], x, key, le);
      forall j | 0 <= j < |rest|
        ensures le(key(s[0]), key(rest[j]))
      {
        assert rest[j] in multiset(rest);
        if rest[j] != x {
          assert rest[j] in multiset(s[1..]);
          var i :| 0 <= i < |s[1..]| && s[1..][i] == rest[j];
          assert s[i + 1] == rest[j];
        }
      }
    }
  }

  /** When `s` is sorted, no element after an element of strictly greater key has key `k`. */
  lemma {:induction false} NoKeyAfterGreater<T(!new), K(!new)>(s: seq<T>, k: K, key: T -> K, le: (K, K) -> bool)
    requires IsTotalOrder(le) && SortedBy(s, key, le)
    requires s != [] && le(k, key(s[0])) && !le(key(s[0]), k)
    ensures WithKey(s, key, k) == []
    decreases |s|
  {
    var last := s[|s| - 1];
    assert le(key(s[0]), key(last));
    if |s| > 1 {
      NoKeyAfterGreater(s[..|s| - 1], k, key, le);
    }
  }

  /** `WithKey` keeps exactly the elements of key `k`. */
  lemma {:induction false} WithKeyMembers<T(!new), K(!new)>(s: seq<T>, key: T -> K, k: K)
    ensures forall x :: x in WithKey(s, key, k) <==> x in s && key(x) == k
  {
    if s != [] {
      WithKeyMembers(s[..|s| - 1], key, k);
      assert s == s[..|s| - 1] + [s[|s| - 1]];
    }
  }

  lemma {:induction false} WithKeyPrepend<T(!new), K(!new)>(x: T, s: seq<T>, key: T -> K, k: K)
    ensures WithKey([x] + s, key, k) == (if key(x) == k then [x] else []) + WithKey(s, key, k)
    decreases |s|
  {
    if s != [] {
      var t := [x] + s;
      assert t[..|t| - 1] == [x] + s[..|s| - 1];
      WithKeyPrepend(x, s[..|s| - 1], key, k);
    } else {
      assert ([x] + s)[..0] == [];
    }
  }

  /** Inserting `x` appends it to the elements of its own key and leaves the others alone. */
  lemma {:induction false} InsertWithKey<T(!new), K(!new)>(s: seq<T>, x: T, key: T -> K, le: (K, K) -> bool, k: K)
    requires IsTotalOrder(le) && SortedBy(s, key, le)
    ensures WithKey(Insert(s, x, key, le), key, k) ==
            WithKey(s, key, k) + (if key(x) == k then [x] else [])
  {
    if s == [] {
      assert [x][..0] == [];
    } else if le(key(x), key(s[0])) && !le(key(s[0]), key(x)) {
      InsertFrontWithKey(s, x, key, le, k);
    } else {
      InsertWithKey(s[1..], x, key, le, k);
      InsertBehindWithKey(s, x, key, le, k);
    }
  }

  lemma InsertFrontWithKey<T(!new), K(!new)>(s: seq<T>, x: T, key: T -> K, le: (K, K) -> bool, k: K)
    requires IsTotalOrder(le) && SortedBy(s, key, le)
    requires s != [] && le(key(x), key(s[0])) && !le(key(s[0]), key(x))
    ensures WithKey(Insert(s, x, key, le), key, k) ==
            WithKey(s, key, k) + (if key(x) == k then [x] else [])
  {
    WithKeyPrepend(x, s, key, k);
    if key(x) == k {
      NoKeyAfterGreater(s, k, key, le);
    }
  }

  lemma InsertBehindWithKey<T(!new), K(!new)>(s: seq<T>, x: T, key: T -> K, le: (K, K) -> bool, k: K)
    requires s != [] && !(le(key(x), key(s[0])) && !le(key(s[0]), key(x)))
    requires WithKey(Insert(s[1..], x, key, le), key, k) ==
             WithKey(s[1..], key, k) + (if key(x) == k then [x] else [])
    ensures WithKey(Insert(s, x, key, le), key, k) ==
            WithKey(s, key, k) + (if key(x) == k then [x] else [])
  {
    var head := if key(s[0]) == k then [s[0]] else [];
    var tail := if key(x) == k then [x] else [];
    var rest := Insert(s[1..], x, key, le);
    calc {
      WithKey(Insert(s, x, key, le), key, k);
      WithKey([s[0]] + rest, key, k);
      { WithKeyPrepend(s[0], rest, key, k); }
      head + WithKey(rest, key, k);
      head + (WithKey(s[1..], key, k) + tail);
      (head + WithKey(s[1..], key, k)) + tail;
      { WithKeyPrepend(s[0], s[1..], key, k); assert s == [s[0]] + s[1..]; }
      WithKey(s, key, k) + tail;
    }
  }

  /** `SortBy` orders by key and is a permutation of its input. */
  lemma {:induction false} SortBySortsAndPermutes<T(!new), K(!new)>(s: seq<T>, key: T -> K, le: (K, K) -> bool)
    requires IsTotalOrder(le)
    ensures SortedBy(SortBy(s, key, le), key, le)
    ensures multiset(SortBy(s, key, le)) == multiset(s)
  {
    if s != [] {
      var init := s[..|s| - 1];
      SortBySortsAndPermutes(init, key, le);
      InsertSorted(SortBy(init, key, le), s[|s| - 1], key, le);
      InsertPermutes(SortBy(init, key, le), s[|s| - 1], key, le);
      assert s == init + [s[|s| - 1]];
    }
  }

  /** `SortBy` is stable: for every key, the elements with that key keep their order. */
  lemma {:induction false} SortByStable<T(!new), K(!new)>(s: seq<T>, key: T -> K, le: (K, K) -> bool, k: K)
    requires IsTotalOrder(le)
    ensures WithKey(SortBy(s, key, le), key, k) == WithKey(s, key, k)
  {
    if s != [] {
      var init := s[..|s| - 1];
      SortByStable(init, key, le, k);
      SortBySortsAndPermutes(init, key, le);
      InsertWithKey(SortBy(init, key, le), s[|s| - 1], key, le, k);
    }
  }

  /** A slice of a sorted sequence is sorted. */
  lemma SortedSlice<T(!new), K(!new)>(s: seq<T>, i: nat, j: nat, key: T -> K, le: (K, K) -> bool)
    requires i <= j <= |s| && SortedBy(s, key, le)
    ensures SortedBy(s[i..j], key, le)
  {
    forall a, b | 0 <= a < b < j - i
      ensures le(key(s[i..j][a]), key(s[i..j][b]))
    {
      assert s[i..j][a] == s[i + a] && s[i..j][b] == s[i + b];
    }
  }
}
