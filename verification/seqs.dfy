/**
 * Sequence operations behind the `Array.prototype` calls the application
 * makes: `filter`, the insertion-ordered contents of a `Set`, the stable
 * `sort` with a numeric comparator, `sort()` on distinct strings, and
 * `slice(0, n)`.
 */
module Seqs {
  import opened Js

  ghost predicate Distinct<T>(s: seq<T>) {
    forall i, j :: 0 <= i < j < |s| ==> s[i] != s[j]
  }

  /** `r` is `s` with some elements left out and the others kept in their order. */
  ghost predicate Subsequence<T>(r: seq<T>, s: seq<T>)
    decreases |s|
  {
    r == [] || (s != [] && if r[0] == s[0] then Subsequence(r[1..], s[1..]) else Subsequence(r, s[1..]))
  }

  /** `Array.prototype.filter`. */
  function Filter<T(!new)>(s: seq<T>, f: T -> bool): (r: seq<T>)
    ensures Subsequence(r, s)
    ensures forall x :: multiset(r)[x] == if f(x) then multiset(s)[x] else 0
    decreases |s|
  {
    if s == [] then []
    else
      var rest := Filter(s[1..], f);
      assert s == [s[0]] + s[1..];
      if f(s[0]) then [s[0]] + rest
      else
        assert rest != [] ==> multiset(rest)[rest[0]] > 0;
        rest
  }

  /** Filtering with a condition every element meets gives the sequence back. */
  lemma {:induction false} FilterKeepsAll<T(!new)>(s: seq<T>, f: T -> bool)
    requires forall i :: 0 <= i < |s| ==> f(s[i])
    ensures Filter(s, f) == s
    decreases |s|
  {
    if s != [] {
      FilterKeepsAll(s[1..], f);
    }
  }

  /** The contents of a `Set` filled from `s` by `add`: each value once, in order of first insertion. */
  function Dedup<T(==,!new)>(s: seq<T>): (r: seq<T>)
    ensures Distinct(r)
    ensures forall x :: x in r <==> x in s
    decreases |s|
  {
    if s == [] then []
    else
      var r := Dedup(s[..|s| - 1]);
      var x := s[|s| - 1];
      assert forall y :: y in s <==> y in s[..|s| - 1] || y == x by {
        assert s == s[..|s| - 1] + [x];
      }
      if x in r then r else r + [x]
  }

  ghost predicate NonIncreasing<T>(s: seq<T>, key: T -> int) {
    forall i, j :: 0 <= i < j < |s| ==> key(s[i]) >= key(s[j])
  }

  /** One step of a stable sort: `x` goes after every element whose key is not smaller. */
  function InsertByKey<T>(r: seq<T>, x: T, key: T -> int): (o: seq<T>)
    ensures |o| == |r| + 1
    decreases |r|
  {
    if r == [] || key(x) > key(r[0]) then [x] + r
    else [r[0]] + InsertByKey(r[1..], x, key)
  }

  /** Inserting adds `x` and keeps every element. */
  lemma {:induction false} InsertByKeyPermutes<T>(r: seq<T>, x: T, key: T -> int)
    ensures multiset(InsertByKey(r, x, key)) == multiset(r) + multiset{x}
    decreases |r|
  {
    if r != [] && key(x) <= key(r[0]) {
      InsertByKeyPermutes(r[1..], x, key);
      assert r == [r[0]] + r[1..];
    }
  }

  /** Inserting into a non-increasing sequence keeps it non-increasing. */
  lemma {:induction false} InsertByKeyOrdered<T>(r: seq<T>, x: T, key: T -> int)
    requires NonIncreasing(r, key)
    ensures NonIncreasing(InsertByKey(r, x, key), key)
    decreases |r|
  {
    if r == [] || key(x) > key(r[0]) {
      NonIncreasingCons(x, r, key);
    } else {
      var t := InsertByKey(r[1..], x, key);
      InsertByKeyOrdered(r[1..], x, key);
      InsertByKeyPermutes(r[1..], x, key);
      KeysBounded(t, r[1..], x, key, key(r[0]));
      NonIncreasingCons(r[0], t, key);
    }
  }

  /** A head whose key is at least that of the first element keeps the order non-increasing. */
  lemma NonIncreasingCons<T>(h: T, s: seq<T>, key: T -> int)
    requires NonIncreasing(s, key)
    requires s == [] || key(s[0]) <= key(h)
    ensures NonIncreasing([h] + s, key)
  {
    var o := [h] + s;
    forall i, j | 0 <= i < j < |o| ensures key(o[i]) >= key(o[j]) {
      if i == 0 {
        assert o[j] == s[j - 1];
        if j > 1 {
          assert key(s[0]) >= key(s[j - 1]);
        }
      } else {
        assert o[i] == s[i - 1] && o[j] == s[j - 1];
      }
    }
  }

  /** Elements drawn from `r` and `x`, whose keys are all at most `b`, have keys at most `b`. */
  lemma KeysBounded<T>(t: seq<T>, r: seq<T>, x: T, key: T -> int, b: int)
    requires multiset(t) == multiset(r) + multiset{x}
    requires forall j :: 0 <= j < |r| ==> key(r[j]) <= b
    requires key(x) <= b
    ensures forall j :: 0 <= j < |t| ==> key(t[j]) <= b
  {
    forall j | 0 <= j < |t| ensures key(t[j]) <= b {
      assert t[j] in multiset(t);
      if t[j] != x {
        assert t[j] in multiset(r);
        assert t[j] in r;
      }
    }
  }

  /**
   * `Array.prototype.sort` with the comparator `(a, b) => key(b) - key(a)`:
   * highest key first; the sort is stable (ECMAScript 2019 and later).
   */
  function SortDesc<T(!new)>(s: seq<T>, key: T -> int): (r: seq<T>)
    ensures NonIncreasing(r, key)
    ensures multiset(r) == multiset(s)
    ensures |r| == |s|
    decreases |s|
  {
    if s == [] then []
    else
      var init, x := s[..|s| - 1], s[|s| - 1];
      assert s == init + [x];
      var r := SortDesc(init, key);
      InsertByKeyOrdered(r, x, key);
      InsertByKeyPermutes(r, x, key);
      InsertByKey(r, x, key)
  }

  lemma ConcatAssoc<T>(a: seq<T>, b: seq<T>, c: seq<T>)
    ensures a + (b + c) == (a + b) + c
  {
  }

  /** The elements of `s` whose key is `v`, in order. */
  function WithKey<T>(s: seq<T>, key: T -> int, v: int): seq<T>
    decreases |s|
  {
    if s == [] then [] else (if key(s[0]) == v then [s[0]] else []) + WithKey(s[1..], key, v)
  }

  lemma {:induction false} WithKeyAppend<T>(a: seq<T>, b: seq<T>, key: T -> int, v: int)
    ensures WithKey(a + b, key, v) == WithKey(a, key, v) + WithKey(b, key, v)
    decreases |a|
  {
    if a == [] {
      assert a + b == b;
    } else {
      var h := if key(a[0]) == v then [a[0]] else [];
      assert (a + b)[0] == a[0];
      assert (a + b)[1..] == a[1..] + b;
      assert WithKey(a + b, key, v) == h + WithKey(a[1..] + b, key, v);
      WithKeyAppend(a[1..], b, key, v);
      assert WithKey(a, key, v) == h + WithKey(a[1..], key, v);
    }
  }

  lemma {:induction false} WithKeyNone<T>(s: seq<T>, key: T -> int, v: int)
    requires forall i :: 0 <= i < |s| ==> key(s[i]) != v
    ensures WithKey(s, key, v) == []
    decreases |s|
  {
    if s != [] {
      WithKeyNone(s[1..], key, v);
    }
  }

  lemma {:induction false} InsertByKeyStable<T>(r: seq<T>, x: T, key: T -> int, v: int)
    requires NonIncreasing(r, key)
    ensures WithKey(InsertByKey(r, x, key), key, v) == WithKey(r, key, v) + (if key(x) == v then [x] else [])
    decreases |r|
  {
    var tail := if key(x) == v then [x] else [];
    if r == [] || key(x) > key(r[0]) {
      assert InsertByKey(r, x, key) == [x] + r;
      WithKeyCons(x, r, key, v);
      if key(x) == v {
        WithKeyNone(r, key, v);
      } else {
        assert WithKey(r, key, v) + tail == WithKey(r, key, v);
      }
    } else {
      var t := InsertByKey(r[1..], x, key);
      var h := if key(r[0]) == v then [r[0]] else [];
      assert InsertByKey(r, x, key) == [r[0]] + t;
      WithKeyCons(r[0], t, key, v);
      WithKeyCons(r[0], r[1..], key, v);
      assert [r[0]] + r[1..] == r;
      InsertByKeyStable(r[1..], x, key, v);
      ConcatAssoc(h, WithKey(r[1..], key, v), tail);
    }
  }

  lemma WithKeyCons<T>(h: T, s: seq<T>, key: T -> int, v: int)
    ensures WithKey([h] + s, key, v) == (if key(h) == v then [h] else []) + WithKey(s, key, v)
  {
    assert ([h] + s)[0] == h && ([h] + s)[1..] == s;
  }

  /** Stability: among elements with equal keys, the sort keeps their original order. */
  lemma {:induction false} SortDescStable<T(!new)>(s: seq<T>, key: T -> int, v: int)
    ensures WithKey(SortDesc(s, key), key, v) == WithKey(s, key, v)
    decreases |s|
  {
    if s != [] {
      var init, x := s[..|s| - 1], s[|s| - 1];
      assert s == init + [x];
      var tail := if key(x) == v then [x] else [];
      assert SortDesc(s, key) == InsertByKey(SortDesc(init, key), x, key);
      SortDescStable(init, key, v);
      InsertByKeyStable(SortDesc(init, key), x, key, v);
      assert WithKey(SortDesc(s, key), key, v) == WithKey(init, key, v) + tail;
      WithKeyAppend(init, [x], key, v);
      assert WithKey([x], key, v) == tail;
    }
  }

  /** `Array.prototype.slice(0, n)`. */
  function Take<T>(s: seq<T>, n: nat): (r: seq<T>)
    ensures |r| == if |s| <= n then |s| else n
    ensures r == s[..|r|]
  {
    if |s| <= n then s else s[..n]
  }

  /** Taking a prefix keeps, for every key, a prefix of the elements with that key. */
  lemma {:induction false} WithKeyTake<T>(s: seq<T>, n: nat, key: T -> int, v: int)
    ensures WithKey(Take(s, n), key, v) <= WithKey(s, key, v)
  {
    var t := Take(s, n);
    assert s == t + s[|t|..];
    WithKeyAppend(t, s[|t|..], key, v);
  }

  ghost predicate StrSorted(s: seq<string>) {
    forall i, j :: 0 <= i < j < |s| ==> StrLt(s[i], s[j])
  }

  function InsertStr(r: seq<string>, x: string): (o: seq<string>)
    requires StrSorted(r) && x !in r
    ensures StrSorted(o)
    ensures multiset(o) == multiset(r) + multiset{x}
    ensures forall y :: y in o <==> y in r || y == x
    decreases |r|
  {
    if r == [] || StrLt(x, r[0]) then
      assert forall j :: 0 <= j < |r| ==> StrLt(x, r[j]) by {
        forall j | 0 <= j < |r| ensures StrLt(x, r[j]) {
          if j > 0 { StrLtTransitive(x, r[0], r[j]); }
        }
      }
      [x] + r
    else
      StrLtTotal(x, r[0]);
      var t := InsertStr(r[1..], x);
      StrsAbove(t, r[1..], x, r[0]);
      assert r == [r[0]] + r[1..];
      [r[0]] + t
  }

  /** Strings drawn from `r` and `x`, all above `b`, are above `b`. */
  lemma StrsAbove(t: seq<string>, r: seq<string>, x: string, b: string)
    requires forall y :: y in t ==> y in r || y == x
    requires forall j :: 0 <= j < |r| ==> StrLt(b, r[j])
    requires StrLt(b, x)
    ensures forall j :: 0 <= j < |t| ==> StrLt(b, t[j])
  {
    forall j | 0 <= j < |t| ensures StrLt(b, t[j]) {
      assert t[j] in t;
    }
  }

  /** `Array.prototype.sort()` on distinct strings: ascending in the order `StrLt`. */
  function SortDistinctStrings(s: seq<string>): (r: seq<string>)
    requires Distinct(s)
    ensures StrSorted(r)
    ensures multiset(r) == multiset(s)
    ensures forall y :: y in r <==> y in s
    decreases |s|
  {
    if s == [] then []
    else
      assert s == s[..|s| - 1] + [s[|s| - 1]];
      InsertStr(SortDistinctStrings(s[..|s| - 1]), s[|s| - 1])
  }

  /** An element of `s` the first `n` of a highest-key-first sort leave out ranks no higher than any of them. */
  lemma TakeSortDescCompleto<T(!new)>(s: seq<T>, key: T -> int, n: nat, x: T)
    requires x in s && x !in Take(SortDesc(s, key), n)
    ensures |Take(SortDesc(s, key), n)| == n
    ensures forall i :: 0 <= i < n ==> key(Take(SortDesc(s, key), n)[i]) >= key(x)
  {
    var o := SortDesc(s, key);
    assert x in multiset(o);
    var k :| 0 <= k < |o| && o[k] == x;
  }

  /** A sequence without repetitions holds each value at most once. */
  lemma {:induction false} DistinctMultiset<T>(s: seq<T>)
    requires Distinct(s)
    ensures forall x :: multiset(s)[x] <= 1
    decreases |s|
  {
    if s != [] {
      DistinctMultiset(s[1..]);
      assert s == [s[0]] + s[1..];
      assert s[0] !in s[1..];
    }
  }

  /** A sequence that holds each value at most once has no repetitions. */
  lemma MultisetDistinct<T>(s: seq<T>)
    requires forall x :: multiset(s)[x] <= 1
    ensures Distinct(s)
  {
    forall i, j | 0 <= i < j < |s| ensures s[i] != s[j] {
      assert s == s[..j] + s[j..];
      assert s[i] in s[..j];
      assert s[j] in s[j..];
      assert multiset(s)[s[j]] == multiset(s[..j])[s[j]] + multiset(s[j..])[s[j]];
    }
  }

  /** Sorting a sequence without repetitions gives one without repetitions. */
  lemma SortDescDistinct<T(!new)>(s: seq<T>, key: T -> int)
    requires Distinct(s)
    ensures Distinct(SortDesc(s, key))
  {
    DistinctMultiset(s);
    MultisetDistinct(SortDesc(s, key));
  }
}
