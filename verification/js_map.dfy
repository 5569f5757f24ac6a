/**
 * A JavaScript `Map` as the application uses it: `get`, `set` and iteration
 * over `entries()` in insertion order. Entries are (key, value) pairs; `set`
 * on a present key replaces its value in place, on a new key appends.
 */
module JsMap {
  import opened Wrappers
  import opened Seqs

  function Keys<K, V>(m: seq<(K, V)>): (ks: seq<K>)
    ensures |ks| == |m| && forall i :: 0 <= i < |m| ==> ks[i] == m[i].0
  {
    seq(|m|, i requires 0 <= i < |m| => m[i].0)
  }

  /** `Map.prototype.get`; `None` is `undefined`. */
  function Get<K(==), V>(m: seq<(K, V)>, k: K): Option<V>
    decreases |m|
  {
    if m == [] then None
    else if m[0].0 == k then Some(m[0].1)
    else Get(m[1..], k)
  }

  /** `get` finds a value exactly for the keys present, and the value is stored under that key. */
  lemma {:induction false} GetKeys<K, V>(m: seq<(K, V)>, k: K)
    ensures Get(m, k).Some? <==> k in Keys(m)
    ensures Get(m, k).Some? ==> (k, Get(m, k).value) in m
    decreases |m|
  {
    if m != [] {
      assert Keys(m) == [m[0].0] + Keys(m[1..]);
      if m[0].0 != k {
        GetKeys(m[1..], k);
      }
    }
  }

  /** `Map.prototype.set`. */
  function Put<K(==), V>(m: seq<(K, V)>, k: K, v: V): seq<(K, V)>
    decreases |m|
  {
    if m == [] then [(k, v)]
    else if m[0].0 == k then [(k, v)] + m[1..]
    else [m[0]] + Put(m[1..], k, v)
  }

  /** `set` on a present key keeps the key order; on a new key it appends the key. */
  lemma {:induction false} PutKeys<K, V>(m: seq<(K, V)>, k: K, v: V)
    ensures Keys(Put(m, k, v)) == if k in Keys(m) then Keys(m) else Keys(m) + [k]
    decreases |m|
  {
    if m == [] {
    } else if m[0].0 == k {
      assert Keys(Put(m, k, v)) == Keys(m);
    } else {
      var t := Put(m[1..], k, v);
      PutKeys(m[1..], k, v);
      assert Keys(m) == [m[0].0] + Keys(m[1..]);
      assert k in Keys(m) <==> k in Keys(m[1..]);
      assert Keys(Put(m, k, v)) == [m[0].0] + Keys(t);
    }
  }

  /** After `set`, `get` finds the value just set. */
  lemma {:induction false} PutSame<K, V>(m: seq<(K, V)>, k: K, v: V)
    ensures Get(Put(m, k, v), k) == Some(v)
    decreases |m|
  {
    if m != [] && m[0].0 != k {
      PutSame(m[1..], k, v);
      assert Put(m, k, v)[1..] == Put(m[1..], k, v);
    }
  }

  /** `set` leaves every other key's value as it was. */
  lemma {:induction false} PutOther<K, V>(m: seq<(K, V)>, k: K, v: V, k': K)
    requires k' != k
    ensures Get(Put(m, k, v), k') == Get(m, k')
    decreases |m|
  {
    if m != [] && m[0].0 != k {
      PutOther(m[1..], k, v, k');
      assert Put(m, k, v)[1..] == Put(m[1..], k, v);
    }
  }

  /** With distinct keys, an entry that is present is what `get` finds. */
  lemma {:induction false} GetEntry<K, V>(m: seq<(K, V)>, k: K, v: V)
    requires Distinct(Keys(m)) && (k, v) in m
    ensures Get(m, k) == Some(v)
    decreases |m|
  {
    if m[0] != (k, v) {
      assert m[0].0 != k by {
        var i :| 0 <= i < |m| && m[i] == (k, v);
        assert Keys(m)[i] == k;
      }
      assert (k, v) in m[1..] by {
        var i :| 0 <= i < |m| && m[i] == (k, v);
        assert m[1..][i - 1] == (k, v);
      }
      assert Keys(m[1..]) == Keys(m)[1..];
      GetEntry(m[1..], k, v);
    }
  }

  /** `set` keeps the keys distinct. */
  lemma PutDistinct<K, V>(m: seq<(K, V)>, k: K, v: V)
    requires Distinct(Keys(m))
    ensures Distinct(Keys(Put(m, k, v)))
  {
    PutKeys(m, k, v);
  }
}
