/**
 * A Python `dict`, modelled as the sequence of its items in insertion order.
 * Iterating over `d.items()` visits exactly this sequence; a dict never holds
 * a key twice (`DistinctKeys`).
 */
module Dict {
  import opened Wrappers

  /** `list(d.keys())` */
  function Keys<K, V>(d: seq<(K, V)>): seq<K>
  {
    seq(|d|, i requires 0 <= i < |d| => d[i].0)
  }

  /** Every key occurs at most once: the invariant every dict keeps. */
  predicate DistinctKeys<K(==), V>(d: seq<(K, V)>)
  {
    forall i, j :: 0 <= i < j < |d| ==> d[i].0 != d[j].0
  }

  /** `k in d` */
  predicate Contains<K(==), V>(d: seq<(K, V)>, k: K)
  {
    exists i :: 0 <= i < |d| && d[i].0 == k
  }

  /** `d.get(k)`, with None for a missing key. */
  function Get<K(==), V>(d: seq<(K, V)>, k: K): (r: Option<V>)
    ensures r.Some? <==> Contains(d, k)
    ensures r.Some? ==> (k, r.value) in d
  {
    if d == [] then None
    else if d[0].0 == k then Some(d[0].1)
    else
      ContainsTail(d, k);
      Get(d[1..], k)
  }

  /** `d.get(k, default)` */
  function GetOr<K(==), V>(d: seq<(K, V)>, k: K, default: V): (v: V)
    ensures Contains(d, k) ==> Get(d, k) == Some(v)
    ensures !Contains(d, k) ==> v == default
  {
    match Get(d, k)
    case Some(v) => v
    case None => default
  }

  /**
   * `d[k] = v`: a present key keeps its position and gets the new value,
   * a new key goes to the end.
   */
  function Put<K(==), V>(d: seq<(K, V)>, k: K, v: V): (r: seq<(K, V)>)
    ensures !Contains(d, k) ==> r == d + [(k, v)]
    ensures |r| == if Contains(d, k) then |d| else |d| + 1
  {
    if d == [] then [(k, v)]
    else if d[0].0 == k then [(k, v)] + d[1..]
    else
      assert Contains(d, k) <==> Contains(d[1..], k) by { ContainsTail(d, k); }
      [d[0]] + Put(d[1..], k, v)
  }

  /** Below a head with another key, membership is membership in the tail. */
  lemma ContainsTail<K, V>(d: seq<(K, V)>, k: K)
    requires d != [] && d[0].0 != k
    ensures Contains(d, k) <==> Contains(d[1..], k)
  {
    if Contains(d, k) {
      var i :| 0 <= i < |d| && d[i].0 == k;
      assert d[1..][i - 1].0 == k;
    }
    if Contains(d[1..], k) {
      var i :| 0 <= i < |d[1..]| && d[1..][i].0 == k;
      assert d[i + 1].0 == k;
    }
  }

  /** Assigning to a present key overwrites its item in place. */
  lemma {:induction false} PutPresent<K, V>(d: seq<(K, V)>, k: K, v: V)
    requires Contains(d, k)
    ensures exists i :: 0 <= i < |d| && d[i].0 == k && Put(d, k, v) == d[i := (k, v)]
  {
    if d[0].0 == k {
      assert Put(d, k, v) == d[0 := (k, v)];
    } else {
      ContainsTail(d, k);
      PutPresent(d[1..], k, v);
      var i :| 0 <= i < |d[1..]| && d[1..][i].0 == k && Put(d[1..], k, v) == d[1..][i := (k, v)];
      assert Put(d, k, v) == d[i + 1 := (k, v)];
    }
  }

  /** Appending a new key keeps the keys distinct. */
  lemma AppendDistinct<K, V>(d: seq<(K, V)>, k: K, v: V)
    requires DistinctKeys(d) && !Contains(d, k)
    ensures DistinctKeys(d + [(k, v)])
  {
    var r := d + [(k, v)];
    forall i, j | 0 <= i < j < |r| ensures r[i].0 != r[j].0 {
      if j == |d| {
        assert d[i].0 != k;
      } else {
        assert r[i] == d[i] && r[j] == d[j];
      }
    }
  }

  /** The keys of `d + [(k, v)]` are those of `d` and `k`. */
  lemma AppendContains<K, V>(d: seq<(K, V)>, k: K, v: V, k': K)
    ensures Contains(d + [(k, v)], k') <==> Contains(d, k') || k' == k
  {
    var r := d + [(k, v)];
    if Contains(r, k') && k' != k {
      var i :| 0 <= i < |r| && r[i].0 == k';
      assert r[i] == d[i];
    }
    if Contains(d, k') {
      var i :| 0 <= i < |d| && d[i].0 == k';
      assert r[i] == d[i];
    }
    if k' == k {
      assert r[|d|].0 == k;
    }
  }

  /** A dict whose keys are distinct finds each item under its own key. */
  lemma {:induction false} GetAt<K, V>(d: seq<(K, V)>, i: int)
    requires DistinctKeys(d)
    requires 0 <= i < |d|
    ensures Get(d, d[i].0) == Some(d[i].1)
  {
    if i > 0 {
      assert d[0].0 != d[i].0;
      assert d[1..][i - 1] == d[i];
      GetAt(d[1..], i - 1);
    }
  }

  /** After `d[k] = v`, `d.get(k)` is `v` and every other key reads as before. */
  lemma {:induction false} PutGet<K, V>(d: seq<(K, V)>, k: K, v: V, k': K)
    ensures Get(Put(d, k, v), k') == if k' == k then Some(v) else Get(d, k')
  {
    if d != [] && d[0].0 != k {
      PutGet(d[1..], k, v, k');
    }
  }
}
