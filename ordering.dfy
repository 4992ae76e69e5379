/** The ordering engine: Python's `sorted(xs, key=..., reverse=...)` over
    discovered records. Python's sort is stable, also with reverse=True
    (records with equal keys keep their discovery order); `Sort` below is a
    stable insertion sort, and `StableSortUnique` shows that every stable
    sort returns the same sequence, so `Sort` is that sequence. */
module Ordering {

  /** `k1` may come before `k2` in a sort in this direction. */
  predicate InOrder(k1: int, k2: int, reverse: bool) {
    if reverse then k1 >= k2 else k1 <= k2
  }

  ghost predicate Sorted<T>(s: seq<T>, key: T -> int, reverse: bool) {
    forall i, j :: 0 <= i < j < |s| ==> InOrder(key(s[i]), key(s[j]), reverse)
  }

  /** The elements of `s` whose key is `k`, in their order in `s`. */
  function KeyFilter<T>(s: seq<T>, key: T -> int, k: int): seq<T> {
    if s == [] then []
    else (if key(s[0]) == k then [s[0]] else []) + KeyFilter(s[1..], key, k)
  }

  /** No two elements share a key. */
  ghost predicate DistinctKeys<T>(s: seq<T>, key: T -> int) {
    forall i, j :: 0 <= i < j < |s| ==> key(s[i]) != key(s[j])
  }

  /** Inserts `x` in front of the first element it may precede, so that `x`
      stays ahead of every element with the same key. */
  function Insert<T>(x: T, s: seq<T>, key: T -> int, reverse: bool): (r: seq<T>)
    ensures |r| == |s| + 1
    ensures multiset(r) == multiset(s) + multiset{x}
  {
    if s == [] || InOrder(key(x), key(s[0]), reverse) then [x] + s
    else
      assert s == [s[0]] + s[1..];
      [s[0]] + Insert(x, s[1..], key, reverse)
  }

  lemma {:induction false} InsertSorted<T>(x: T, s: seq<T>, key: T -> int, reverse: bool)
    requires Sorted(s, key, reverse)
    ensures Sorted(Insert(x, s, key, reverse), key, reverse)
  {
    if s == [] {
      assert Insert(x, s, key, reverse) == [x];
    } else if InOrder(key(x), key(s[0]), reverse) {
      forall j | 0 <= j < |s|
        ensures InOrder(key(x), key(s[j]), reverse)
      {
        if j > 0 {
          assert InOrder(key(s[0]), key(s[j]), reverse);
        }
      }
      ConsSorted(x, s, key, reverse);
    } else {
      var tail := s[1..];
      var rest := Insert(x, tail, key, reverse);
      assert Sorted(tail, key, reverse) by {
        forall i, j | 0 <= i < j < |tail|
          ensures InOrder(key(tail[i]), key(tail[j]), reverse)
        {
          assert tail[i] == s[i + 1] && tail[j] == s[j + 1];
        }
      }
      InsertSorted(x, tail, key, reverse);
      forall j | 0 <= j < |rest|
        ensures InOrder(key(s[0]), key(rest[j]), reverse)
      {
        assert rest[j] in multiset(tail) + multiset{x} by {
          assert rest[j] in multiset(rest);
        }
        if rest[j] != x {
          assert rest[j] in tail;
          var m :| 0 <= m < |tail| && tail[m] == rest[j];
          assert tail[m] == s[m + 1];
        }
      }
      ConsSorted(s[0], rest, key, reverse);
    }
  }

  /** A sorted sequence stays sorted behind an element that may precede
      all of it. */
  lemma {:induction false} ConsSorted<T>(h: T, s: seq<T>, key: T -> int, reverse: bool)
    requires Sorted(s, key, reverse)
    requires forall j :: 0 <= j < |s| ==> InOrder(key(h), key(s[j]), reverse)
    ensures Sorted([h] + s, key, reverse)
  {
    var r := [h] + s;
    forall i, j | 0 <= i < j < |r|
      ensures InOrder(key(r[i]), key(r[j]), reverse)
    {
      assert r[j] == s[j - 1];
      if i > 0 {
        assert r[i] == s[i - 1];
      }
    }
  }

  /** `x` lands ahead of every element with its key and behind only
      elements with other keys, so filtering by any key sees `x` first. */
  lemma {:induction false} InsertKeyFilter<T>(x: T, s: seq<T>, key: T -> int, reverse: bool, k: int)
    ensures KeyFilter(Insert(x, s, key, reverse), key, k)
      == if key(x) == k then [x] + KeyFilter(s, key, k) else KeyFilter(s, key, k)
  {
    if s == [] || InOrder(key(x), key(s[0]), reverse) {
      assert Insert(x, s, key, reverse) == [x] + s;
      KeyFilterCons(x, s, key, k);
    } else {
      var rest := Insert(x, s[1..], key, reverse);
      assert Insert(x, s, key, reverse) == [s[0]] + rest;
      InsertKeyFilter(x, s[1..], key, reverse, k);
      KeyFilterCons(s[0], rest, key, k);
      KeyFilterCons(s[0], s[1..], key, k);
      assert [s[0]] + s[1..] == s;
    }
  }

  lemma {:induction false} KeyFilterCons<T>(h: T, t: seq<T>, key: T -> int, k: int)
    ensures KeyFilter([h] + t, key, k) == (if key(h) == k then [h] else []) + KeyFilter(t, key, k)
  {
    assert ([h] + t)[0] == h && ([h] + t)[1..] == t;
  }

  /** `sorted(s, key=key, reverse=reverse)`. */
  function Sort<T>(s: seq<T>, key: T -> int, reverse: bool): (r: seq<T>)
    ensures Sorted(r, key, reverse)
    ensures multiset(r) == multiset(s)
    ensures forall k :: KeyFilter(r, key, k) == KeyFilter(s, key, k)
  {
    if s == [] then []
    else
      assert s == [s[0]] + s[1..];
      var rest := Sort(s[1..], key, reverse);
      InsertSorted(s[0], rest, key, reverse);
      forall k
        ensures KeyFilter(Insert(s[0], rest, key, reverse), key, k) == KeyFilter(s, key, k)
      {
        InsertKeyFilter(s[0], rest, key, reverse, k);
      }
      Insert(s[0], rest, key, reverse)
  }

  function Reverse<T>(s: seq<T>): (r: seq<T>)
    ensures |r| == |s|
    ensures forall i :: 0 <= i < |s| ==> r[i] == s[|s| - 1 - i]
  {
    if s == [] then [] else Reverse(s[1..]) + [s[0]]
  }

  lemma {:induction false} KeyFilterAbsent<T>(s: seq<T>, key: T -> int, k: int)
    requires forall i :: 0 <= i < |s| ==> key(s[i]) != k
    ensures KeyFilter(s, key, k) == []
  {
    if s != [] {
      KeyFilterAbsent(s[1..], key, k);
    }
  }

  lemma {:induction false} KeyFilterConcat<T>(a: seq<T>, b: seq<T>, key: T -> int, k: int)
    ensures KeyFilter(a + b, key, k) == KeyFilter(a, key, k) + KeyFilter(b, key, k)
  {
    if a != [] {
      assert (a + b)[1..] == a[1..] + b;
      KeyFilterConcat(a[1..], b, key, k);
    } else {
      assert a + b == b;
    }
  }

  lemma {:induction false} KeyFilterReverse<T>(s: seq<T>, key: T -> int, k: int)
    ensures KeyFilter(Reverse(s), key, k) == Reverse(KeyFilter(s, key, k))
  {
    if s != [] {
      KeyFilterReverse(s[1..], key, k);
      KeyFilterConcat(Reverse(s[1..]), [s[0]], key, k);
      assert KeyFilter([s[0]], key, k) == if key(s[0]) == k then [s[0]] else [];
      var f := KeyFilter(s[1..], key, k);
      if key(s[0]) == k {
        assert KeyFilter(s, key, k) == [s[0]] + f;
        assert ([s[0]] + f)[1..] == f;
      } else {
        assert KeyFilter(s, key, k) == f;
      }
    }
  }

  lemma {:induction false} DistinctKeysFilter<T>(s: seq<T>, key: T -> int, k: int)
    requires DistinctKeys(s, key)
    ensures |KeyFilter(s, key, k)| <= 1
  {
    if s != [] {
      if key(s[0]) == k {
        KeyFilterAbsent(s[1..], key, k);
      } else {
        DistinctKeysFilter(s[1..], key, k);
      }
    }
  }

  /** A sorted sequence holds no element with a key that would have to come
      before its first element. */
  lemma {:induction false} KeyFilterPastHead<T>(s: seq<T>, key: T -> int, k: int, reverse: bool)
    requires s != [] && Sorted(s, key, reverse)
    ensures InOrder(k, key(s[0]), reverse) && k != key(s[0]) ==> KeyFilter(s, key, k) == []
  {
    if InOrder(k, key(s[0]), reverse) && k != key(s[0]) {
      KeyFilterAbsent(s, key, k);
    }
  }

  /** Two sequences sorted in the same direction whose equal-key elements
      appear in the same order are equal: a stable sort has one result. */
  lemma {:induction false} StableSortUnique<T>(a: seq<T>, b: seq<T>, key: T -> int, reverse: bool)
    requires Sorted(a, key, reverse) && Sorted(b, key, reverse)
    requires forall k :: KeyFilter(a, key, k) == KeyFilter(b, key, k)
    ensures a == b
    decreases |a|
  {
    if a != [] {
      assert KeyFilter(a, key, key(a[0])) == [a[0]] + KeyFilter(a[1..], key, key(a[0]));
    }
    if b != [] {
      assert KeyFilter(b, key, key(b[0])) == [b[0]] + KeyFilter(b[1..], key, key(b[0]));
    }
    if a != [] && b != [] {
      var ka, kb := key(a[0]), key(b[0]);
      KeyFilterPastHead(b, key, ka, reverse);
      KeyFilterPastHead(a, key, kb, reverse);
      assert ka == kb;
      assert ([a[0]] + KeyFilter(a[1..], key, ka))[0] == a[0];
      assert ([b[0]] + KeyFilter(b[1..], key, ka))[0] == b[0];
      forall k
        ensures KeyFilter(a[1..], key, k) == KeyFilter(b[1..], key, k)
      {
        if k == ka {
          assert ([a[0]] + KeyFilter(a[1..], key, ka))[1..] == KeyFilter(a[1..], key, ka);
          assert ([b[0]] + KeyFilter(b[1..], key, ka))[1..] == KeyFilter(b[1..], key, ka);
        } else {
          assert KeyFilter(a, key, k) == KeyFilter(a[1..], key, k);
          assert KeyFilter(b, key, k) == KeyFilter(b[1..], key, k);
        }
      }
      StableSortUnique(a[1..], b[1..], key, reverse);
      assert a == [a[0]] + a[1..] && b == [b[0]] + b[1..];
    }
  }

  /** An ascending sequence read backwards is descending. */
  lemma ReverseSorted<T>(s: seq<T>, key: T -> int)
    requires Sorted(s, key, false)
    ensures Sorted(Reverse(s), key, true)
  {
    var r := Reverse(s);
    forall i, j | 0 <= i < j < |r|
      ensures InOrder(key(r[i]), key(r[j]), true)
    {
      assert r[i] == s[|s| - 1 - i] && r[j] == s[|s| - 1 - j];
      assert InOrder(key(s[|s| - 1 - j]), key(s[|s| - 1 - i]), false);
    }
  }

  /** Start order and stop order are mirror images when no two records share
      a priority: sorting with reverse=True gives the ascending order read
      backwards. (With shared priorities both keep discovery order among
      equals, so they are not mirror images.) */
  lemma {:induction false} ReverseSortMirrorsSort<T>(s: seq<T>, key: T -> int)
    requires DistinctKeys(s, key)
    ensures Sort(s, key, true) == Reverse(Sort(s, key, false))
  {
    var up := Sort(s, key, false);
    var down := Reverse(up);
    ReverseSorted(up, key);
    forall k
      ensures KeyFilter(down, key, k) == KeyFilter(Sort(s, key, true), key, k)
    {
      KeyFilterReverse(up, key, k);
      DistinctKeysFilter(s, key, k);
    }
    StableSortUnique(Sort(s, key, true), down, key, true);
  }
}
