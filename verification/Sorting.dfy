/** list.sort and ORDER BY: stable insertion into ascending order of an integer key. */
module Sorting {

  function Insert<T>(x: T, s: seq<T>, key: T -> int): seq<T> {
    if s == [] || key(x) <= key(s[0]) then [x] + s else [s[0]] + Insert(x, s[1..], key)
  }

  function SortBy<T>(s: seq<T>, key: T -> int): seq<T> {
    if s == [] then [] else Insert(s[0], SortBy(s[1..], key), key)
  }

  predicate Ordered<T>(s: seq<T>, key: T -> int) {
    forall i, j :: 0 <= i < j < |s| ==> key(s[i]) <= key(s[j])
  }

  predicate StrictlyOrdered<T>(s: seq<T>, key: T -> int) {
    forall i, j :: 0 <= i < j < |s| ==> key(s[i]) < key(s[j])
  }

  /** The elements with key k, in their order. */
  function WithKey<T>(s: seq<T>, key: T -> int, k: int): seq<T> {
    if s == [] then [] else (if key(s[0]) == k then [s[0]] else []) + WithKey(s[1..], key, k)
  }

  lemma {:induction false} InsertKeepsItems<T>(x: T, s: seq<T>, key: T -> int)
    ensures multiset(Insert(x, s, key)) == multiset{x} + multiset(s)
  {
    if s != [] && key(x) > key(s[0]) {
      InsertKeepsItems(x, s[1..], key);
      assert s == [s[0]] + s[1..];
    }
  }

  lemma {:induction false} SortKeepsItems<T>(s: seq<T>, key: T -> int)
    ensures multiset(SortBy(s, key)) == multiset(s) && |SortBy(s, key)| == |s|
  {
    if s != [] {
      SortKeepsItems(s[1..], key);
      InsertKeepsItems(s[0], SortBy(s[1..], key), key);
      assert s == [s[0]] + s[1..];
    }
    assert |multiset(SortBy(s, key))| == |SortBy(s, key)| && |multiset(s)| == |s|;
  }

  lemma {:induction false} InsertKeepsOrder<T>(x: T, s: seq<T>, key: T -> int)
    requires Ordered(s, key)
    ensures Ordered(Insert(x, s, key), key)
    ensures forall y :: y in Insert(x, s, key) ==> y == x || y in s
  {
    if s != [] && key(x) > key(s[0]) {
      InsertKeepsOrder(x, s[1..], key);
      forall y | y in Insert(x, s[1..], key) ensures key(s[0]) <= key(y) {
        if y in s[1..] {
          var i :| 0 <= i < |s[1..]| && s[1..][i] == y;
          assert s[i + 1] == y;
        }
      }
    }
  }

  lemma {:induction false} SortOrders<T>(s: seq<T>, key: T -> int)
    ensures Ordered(SortBy(s, key), key)
  {
    if s != [] {
      SortOrders(s[1..], key);
      InsertKeepsOrder(s[0], SortBy(s[1..], key), key);
    }
  }

  lemma {:induction false} InsertIsStable<T>(x: T, s: seq<T>, key: T -> int, k: int)
    ensures WithKey(Insert(x, s, key), key, k) == (if key(x) == k then [x] else []) + WithKey(s, key, k)
    requires Ordered(s, key)
  {
    if s != [] && key(x) > key(s[0]) {
      InsertIsStable(x, s[1..], key, k);
      assert Insert(x, s, key)[1..] == Insert(x, s[1..], key);
      if key(x) == k {
        assert WithKey(s, key, k) == WithKey(s[1..], key, k);
      }
    } else {
      assert Insert(x, s, key)[1..] == s;
    }
  }

  /** Elements with equal keys keep the order they had. */
  lemma {:induction false} SortIsStable<T>(s: seq<T>, key: T -> int, k: int)
    ensures WithKey(SortBy(s, key), key, k) == WithKey(s, key, k)
  {
    if s != [] {
      SortIsStable(s[1..], key, k);
      SortOrders(s[1..], key);
      InsertIsStable(s[0], SortBy(s[1..], key), key, k);
    }
  }

  /** Order and the elements of each key determine a sequence, so the stable sort is the only one. */
  lemma {:induction false} StableOrderIsUnique<T>(s: seq<T>, t: seq<T>, key: T -> int)
    requires Ordered(s, key) && Ordered(t, key) && forall k :: WithKey(s, key, k) == WithKey(t, key, k)
    ensures s == t
  {
    if s == [] {
      EmptyIfNoKeys(t, key);
    } else if t == [] {
      EmptyIfNoKeys(s, key);
    } else {
      SmallestFirst(s, t, key);
      SmallestFirst(t, s, key);
      var k0 := key(s[0]);
      assert WithKey(s, key, k0)[0] == s[0] && WithKey(t, key, k0)[0] == t[0];
      forall k ensures WithKey(s[1..], key, k) == WithKey(t[1..], key, k) {
        assert WithKey(s, key, k) == WithKey(t, key, k);
        WithoutFirst(s, key, k);
        WithoutFirst(t, key, k);
      }
      StableOrderIsUnique(s[1..], t[1..], key);
    }
  }

  lemma EmptyIfNoKeys<T>(t: seq<T>, key: T -> int)
    requires forall k :: WithKey(t, key, k) == []
    ensures t == []
  {
    if t != [] {
      FirstHasItsKey(t, key);
    }
  }

  lemma FirstHasItsKey<T>(t: seq<T>, key: T -> int)
    requires t != []
    ensures WithKey(t, key, key(t[0])) != []
  {}

  lemma SmallestFirst<T>(s: seq<T>, t: seq<T>, key: T -> int)
    requires s != [] && t != [] && Ordered(t, key)
    requires forall k :: WithKey(s, key, k) == WithKey(t, key, k)
    ensures key(t[0]) <= key(s[0])
  {
    if key(t[0]) > key(s[0]) {
      NoneBelow(t, key, key(s[0]));
    }
  }

  lemma WithoutFirst<T>(s: seq<T>, key: T -> int, k: int)
    requires s != []
    ensures WithKey(s[1..], key, k) == if key(s[0]) == k then WithKey(s, key, k)[1..] else WithKey(s, key, k)
  {}

  lemma {:induction false} NoneBelow<T>(s: seq<T>, key: T -> int, k: int)
    requires forall i :: 0 <= i < |s| ==> key(s[i]) > k
    ensures WithKey(s, key, k) == []
  {
    if s != [] {
      NoneBelow(s[1..], key, k);
    }
  }

  /** Sorting any arrangement of strictly ordered elements restores them. */
  lemma {:induction false} SortRestores<T>(s: seq<T>, t: seq<T>, key: T -> int)
    requires StrictlyOrdered(t, key) && multiset(s) == multiset(t)
    ensures SortBy(s, key) == t
  {
    SortKeepsItems(s, key);
    SortOrders(s, key);
    SameItemsSameOrder(SortBy(s, key), t, key);
  }

  lemma RestOfItems<T>(s: seq<T>)
    requires s != []
    ensures multiset(s[1..]) == multiset(s) - multiset{s[0]}
  {
    assert s == [s[0]] + s[1..];
  }

  lemma FirstIsLess<T>(t: seq<T>, i: nat, key: T -> int)
    requires StrictlyOrdered(t, key) && i < |t|
    ensures i == 0 || key(t[0]) < key(t[i])
  {}

  /** A smallest element of s is the strictly smallest of t. */
  lemma SameFirst<T>(s: seq<T>, t: seq<T>, key: T -> int)
    requires Ordered(s, key) && StrictlyOrdered(t, key) && s != [] && t != []
    requires s[0] in t && t[0] in s
    ensures s[0] == t[0]
  {
    var i :| 0 <= i < |t| && t[i] == s[0];
    var j :| 0 <= j < |s| && s[j] == t[0];
    assert key(s[0]) <= key(s[j]);
    FirstIsLess(t, i, key);
  }

  lemma {:induction false} SameItemsSameOrder<T>(s: seq<T>, t: seq<T>, key: T -> int)
    requires Ordered(s, key) && StrictlyOrdered(t, key) && multiset(s) == multiset(t)
    ensures s == t
  {
    assert |s| == |multiset(s)| == |multiset(t)| == |t|;
    if s != [] {
      assert s[0] in multiset(s) && t[0] in multiset(t);
      SameFirst(s, t, key);
      RestOfItems(s);
      RestOfItems(t);
      RestStaysOrdered(s, key);
      RestStaysStrict(t, key);
      SameItemsSameOrder(s[1..], t[1..], key);
      assert s == [s[0]] + s[1..] && t == [t[0]] + t[1..];
    }
  }

  lemma RestStaysOrdered<T>(s: seq<T>, key: T -> int)
    requires Ordered(s, key) && s != []
    ensures Ordered(s[1..], key)
  {}

  lemma RestStaysStrict<T>(s: seq<T>, key: T -> int)
    requires StrictlyOrdered(s, key) && s != []
    ensures StrictlyOrdered(s[1..], key)
  {}
}
