/** Python's `sorted(xs, key=..., reverse=...)` on string keys: a stable sort, modelled
    as insertion sort. Stability is stated as "the elements sharing a key keep their
    original relative order", which together with sortedness fixes the result. */
module Sorting {
  import opened Text

  /** `a` may precede `b` in the requested direction. */
  predicate InOrder(a: string, b: string, descending: bool)
  {
    if descending then LessEq(b, a) else LessEq(a, b)
  }

  ghost predicate SortedBy<T>(s: seq<T>, key: T -> string, descending: bool)
  {
    forall i, j :: 0 <= i < j < |s| ==> InOrder(key(s[i]), key(s[j]), descending)
  }

  /** The elements of `s` whose key is `k`, in their order in `s`. */
  function WithKey<T>(s: seq<T>, key: T -> string, k: string): (r: seq<T>)
    ensures |r| <= |s|
  {
    if s == [] then []
    else if key(s[0]) == k then [s[0]] + WithKey(s[1..], key, k)
    else WithKey(s[1..], key, k)
  }

  /** Inserts `x` before the first element it may precede; `x` therefore goes after
      every element that strictly precedes it and before every element with its key. */
  function InsertBy<T>(x: T, s: seq<T>, key: T -> string, descending: bool): (r: seq<T>)
    ensures multiset(r) == multiset(s) + multiset{x}
  {
    if s == [] || InOrder(key(x), key(s[0]), descending) then [x] + s
    else
      assert s == [s[0]] + s[1..];
      [s[0]] + InsertBy(x, s[1..], key, descending)
  }

  /** Inserting into a sorted sequence gives a sorted sequence. */
  lemma {:induction false} InsertBySorted<T>(x: T, s: seq<T>, key: T -> string, descending: bool)
    requires SortedBy(s, key, descending)
    ensures SortedBy(InsertBy(x, s, key, descending), key, descending)
  {
    var r := InsertBy(x, s, key, descending);
    if s == [] {
    } else if InOrder(key(x), key(s[0]), descending) {
      forall i, j | 0 <= i < j < |r|
        ensures InOrder(key(r[i]), key(r[j]), descending)
      {
        if i == 0 && j > 1 {
          InOrderTransitive(key(x), key(s[0]), key(s[j - 1]), descending);
        }
      }
    } else {
      var rest := InsertBy(x, s[1..], key, descending);
      InsertBySorted(x, s[1..], key, descending);
      InOrderTotal(key(x), key(s[0]), descending);
      assert s == [s[0]] + s[1..];
      forall j | 0 <= j < |rest|
        ensures InOrder(key(s[0]), key(rest[j]), descending)
      {
        assert rest[j] in multiset(rest);
        if rest[j] != x {
          assert rest[j] in multiset(s[1..]);
          var m :| 0 <= m < |s[1..]| && s[1..][m] == rest[j];
          assert s[m + 1] == rest[j];
        }
      }
      assert r == [s[0]] + rest;
    }
  }

  /** `sorted(s, key=key, reverse=descending)`. */
  function SortBy<T>(s: seq<T>, key: T -> string, descending: bool): (r: seq<T>)
    ensures multiset(r) == multiset(s)
    ensures |r| == |s|
    ensures SortedBy(r, key, descending)
  {
    if s == [] then []
    else
      assert s == [s[0]] + s[1..];
      var sortedRest := SortBy(s[1..], key, descending);
      InsertBySorted(s[0], sortedRest, key, descending);
      InsertBy(s[0], sortedRest, key, descending)
  }

  lemma InOrderTransitive(a: string, b: string, c: string, descending: bool)
    requires InOrder(a, b, descending) && InOrder(b, c, descending)
    ensures InOrder(a, c, descending)
  {
    LessEqTotalOrder(a, b, c);
    LessEqTotalOrder(c, b, a);
  }

  lemma InOrderTotal(a: string, b: string, descending: bool)
    ensures InOrder(a, a, descending)
    ensures !InOrder(a, b, descending) ==> InOrder(b, a, descending) && a != b
  {
    LessEqTotalOrder(a, b, a);
  }

  /** Inserting `x` keeps the order among the elements sharing a key. */
  lemma {:induction false} InsertKeepsKeyOrder<T>(x: T, s: seq<T>, key: T -> string, descending: bool, k: string)
    ensures WithKey(InsertBy(x, s, key, descending), key, k)
         == (if key(x) == k then [x] else []) + WithKey(s, key, k)
  {
    if s == [] || InOrder(key(x), key(s[0]), descending) {
      WithKeyCons(x, s, key, k);
    } else {
      InsertKeepsKeyOrder(x, s[1..], key, descending, k);
      InsertPastHead(x, s, key, descending, k);
    }
  }

  /** The step of `InsertKeepsKeyOrder` where `x` goes past the head of `s`: the head
      has another key, so it does not matter which of the two comes first. */
  lemma {:induction false} InsertPastHead<T>(x: T, s: seq<T>, key: T -> string, descending: bool, k: string)
    requires s != [] && !InOrder(key(x), key(s[0]), descending)
    requires WithKey(InsertBy(x, s[1..], key, descending), key, k)
          == (if key(x) == k then [x] else []) + WithKey(s[1..], key, k)
    ensures WithKey(InsertBy(x, s, key, descending), key, k)
         == (if key(x) == k then [x] else []) + WithKey(s, key, k)
  {
    var rest := InsertBy(x, s[1..], key, descending);
    var h0 := if key(s[0]) == k then [s[0]] else [];
    var hx := if key(x) == k then [x] else [];
    assert WithKey(InsertBy(x, s, key, descending), key, k) == h0 + WithKey(rest, key, k) by {
      assert InsertBy(x, s, key, descending) == [s[0]] + rest;
      WithKeyCons(s[0], rest, key, k);
    }
    assert WithKey(s, key, k) == h0 + WithKey(s[1..], key, k) by {
      assert s == [s[0]] + s[1..];
      WithKeyCons(s[0], s[1..], key, k);
    }
    InOrderTotal(key(x), key(s[0]), descending);
    SwapEmptyHead(h0, hx, WithKey(s[1..], key, k));
  }

  /** Two prefixes of which one is empty can be put in either order. */
  lemma SwapEmptyHead<T>(a: seq<T>, b: seq<T>, w: seq<T>)
    requires a == [] || b == []
    ensures a + (b + w) == b + (a + w)
  {
    if a == [] {
      assert a + (b + w) == b + w;
    } else {
      assert a + (b + w) == a + w;
    }
  }

  /** The elements with key `k` of `[y] + s`: `y` when it has that key, then those of `s`. */
  lemma {:induction false} WithKeyCons<T>(y: T, s: seq<T>, key: T -> string, k: string)
    ensures WithKey([y] + s, key, k) == (if key(y) == k then [y] else []) + WithKey(s, key, k)
  {
    assert ([y] + s)[1..] == s;
  }

  /** Stability: for every key, the elements with that key appear in the result in
      the same order as in the input. */
  lemma {:induction false} SortIsStable<T>(s: seq<T>, key: T -> string, descending: bool, k: string)
    ensures WithKey(SortBy(s, key, descending), key, k) == WithKey(s, key, k)
  {
    if s != [] {
      SortIsStable(s[1..], key, descending, k);
      InsertKeepsKeyOrder(s[0], SortBy(s[1..], key, descending), key, descending, k);
    }
  }
}
