/**
  Python's `sorted(xs, key=key)` for a string-valued key. Python guarantees
  that `sorted` is stable; `SortBy` is an insertion sort with that property,
  and `StableSortIsUnique` shows that every stable sort of `xs` by `key`
  yields exactly `SortBy(xs, key)`, so the model does not depend on the
  algorithm Python uses.
 */
module Sorting {
  import opened PyStr

  /** Keys never decrease along `s`. */
  predicate SortedBy<T>(s: seq<T>, key: T -> string)
  {
    forall i, j :: 0 <= i < j < |s| ==> LessEq(key(s[i]), key(s[j]))
  }

  /** The elements of `s` whose key is `k`, in the order of `s`. A sort is
      stable when it keeps this sequence for every key. */
  function WithKey<T>(s: seq<T>, key: T -> string, k: string): seq<T>
  {
    if s == [] then []
    else (if key(s[0]) == k then [s[0]] else []) + WithKey(s[1..], key, k)
  }

  /** `s` is a stable rearrangement of `xs` by `key`. */
  ghost predicate StableFor<T>(s: seq<T>, xs: seq<T>, key: T -> string)
  {
    forall k :: WithKey(s, key, k) == WithKey(xs, key, k)
  }

  /** Inserts `x` in front of the first element whose key is not below `x`'s. */
  function InsertBy<T(!new)>(x: T, s: seq<T>, key: T -> string): (r: seq<T>)
    ensures |r| == |s| + 1
    ensures multiset(r) == multiset(s) + multiset{x}
  {
    if s == [] || LessEq(key(x), key(s[0])) then
      [x] + s
    else
      assert s == [s[0]] + s[1..];
      [s[0]] + InsertBy(x, s[1..], key)
  }

  /** Inserting into a sorted sequence keeps it sorted. */
  lemma {:induction false} InsertBySorted<T(!new)>(x: T, s: seq<T>, key: T -> string)
    requires SortedBy(s, key)
    ensures SortedBy(InsertBy(x, s, key), key)
  {
    var r := InsertBy(x, s, key);
    LessEqTotalOrder();
    if s != [] && !LessEq(key(x), key(s[0])) {
      var tail := InsertBy(x, s[1..], key);
      InsertBySorted(x, s[1..], key);
      assert r == [s[0]] + tail;
      forall j | 0 < j < |r| ensures LessEq(key(r[0]), key(r[j])) {
        assert r[j] == tail[j - 1];
        assert r[j] in multiset(tail);
        if r[j] != x {
          assert r[j] in multiset(s[1..]);
          var m :| 0 <= m < |s[1..]| && s[1..][m] == r[j];
          assert s[m + 1] == r[j];
        }
      }
    }
  }

  /** Insertion puts `x` first among the elements of its key and leaves every
      other key's elements as they were. */
  lemma {:induction false} InsertByWithKey<T(!new)>(x: T, s: seq<T>, key: T -> string, k: string)
    ensures WithKey(InsertBy(x, s, key), key, k) ==
              if key(x) == k then [x] + WithKey(s, key, k) else WithKey(s, key, k)
  {
    var r := InsertBy(x, s, key);
    if s == [] || LessEq(key(x), key(s[0])) {
      assert r[1..] == s;
    } else {
      InsertByWithKey(x, s[1..], key, k);
      LessIrreflexive(key(x));
      assert r[1..] == InsertBy(x, s[1..], key);
      assert WithKey(s, key, k) ==
        (if key(s[0]) == k then [s[0]] else []) + WithKey(s[1..], key, k);
    }
  }

  /** `sorted(xs, key=key)`. */
  function SortBy<T(!new)>(xs: seq<T>, key: T -> string): (r: seq<T>)
    ensures |r| == |xs|
    ensures multiset(r) == multiset(xs)
    ensures SortedBy(r, key)
    ensures StableFor(r, xs, key)
  {
    if xs == [] then []
    else
      var rest := SortBy(xs[1..], key);
      var r := InsertBy(xs[0], rest, key);
      InsertBySorted(xs[0], rest, key);
      assert xs == [xs[0]] + xs[1..];
      assert StableFor(r, xs, key) by {
        forall k ensures WithKey(r, key, k) == WithKey(xs, key, k) {
          InsertByWithKey(xs[0], rest, key, k);
        }
      }
      r
  }

  /** Sorting keeps exactly the elements of its input. */
  lemma SortByMembership<T(!new)>(xs: seq<T>, key: T -> string, x: T)
    ensures x in SortBy(xs, key) <==> x in xs
  {
    var r := SortBy(xs, key);
    assert x in r <==> multiset(r)[x] > 0;
    assert x in xs <==> multiset(xs)[x] > 0;
  }

  lemma {:induction false} WithKeyHas<T>(s: seq<T>, key: T -> string, k: string)
    requires WithKey(s, key, k) != []
    ensures exists j :: 0 <= j < |s| && key(s[j]) == k
    ensures key(WithKey(s, key, k)[0]) == k
  {
    if key(s[0]) != k {
      WithKeyHas(s[1..], key, k);
      var j :| 0 <= j < |s[1..]| && key(s[1..][j]) == k;
      assert key(s[j + 1]) == k;
    }
  }

  lemma WithKeyTail<T>(s: seq<T>, key: T -> string, k: string)
    requires s != []
    ensures WithKey(s[1..], key, k) ==
              if key(s[0]) == k then WithKey(s, key, k)[1..] else WithKey(s, key, k)
  {
  }

  /** Two non-empty sequences sorted by `key` that agree on the elements of
      every key start with the same element, and their tails agree too. */
  lemma SameHead<T>(a: seq<T>, b: seq<T>, key: T -> string)
    requires a != [] && b != []
    requires SortedBy(a, key) && SortedBy(b, key)
    requires StableFor(a, b, key)
    ensures a[0] == b[0]
    ensures SortedBy(a[1..], key) && SortedBy(b[1..], key)
    ensures StableFor(a[1..], b[1..], key)
  {
    var ka, kb := key(a[0]), key(b[0]);
    assert ka == kb by {
      LessEqTotalOrder();
      assert WithKey(a, key, ka) != [];
      WithKeyHas(b, key, ka);
      assert WithKey(b, key, kb) != [];
      WithKeyHas(a, key, kb);
    }
    assert WithKey(a, key, ka)[0] == a[0];
    assert WithKey(b, key, ka)[0] == b[0];
    forall k ensures WithKey(a[1..], key, k) == WithKey(b[1..], key, k) {
      WithKeyTail(a, key, k);
      WithKeyTail(b, key, k);
    }
  }

  /** Two sequences that are both sorted by `key` and agree on the elements of
      every key are equal: a stable sort has only one possible result. */
  lemma {:induction false} StableSortIsUnique<T>(a: seq<T>, b: seq<T>, key: T -> string)
    requires SortedBy(a, key) && SortedBy(b, key)
    requires StableFor(a, b, key)
    ensures a == b
    decreases |a| + |b|
  {
    // One key whose runs tell an empty sequence from a non-empty one.
    var k0 := if a != [] then key(a[0]) else if b != [] then key(b[0]) else "";
    assert WithKey(a, key, k0) == WithKey(b, key, k0);
    if a != [] && b != [] {
      SameHead(a, b, key);
      StableSortIsUnique(a[1..], b[1..], key);
      assert a == [a[0]] + a[1..] && b == [b[0]] + b[1..];
    }
  }

  /** Any sorted, stable rearrangement of `xs` is `SortBy(xs, key)`. */
  lemma SortByIsTheStableSort<T(!new)>(xs: seq<T>, r: seq<T>, key: T -> string)
    requires SortedBy(r, key) && StableFor(r, xs, key)
    ensures r == SortBy(xs, key)
  {
    StableSortIsUnique(r, SortBy(xs, key), key);
  }
}
