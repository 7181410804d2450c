/**
  Python dictionaries as association lists. Python keeps a dict in insertion
  order: assigning to a key already present replaces its value where it stands,
  assigning to a new key appends it. Every dict the model builds keeps its keys
  distinct (`DistinctKeys`).
*/
module Dicts {
  import opened Wrappers

  function Keys<K, V>(d: seq<(K, V)>): (ks: seq<K>)
    ensures |ks| == |d| && forall i :: 0 <= i < |d| ==> ks[i] == d[i].0
  {
    seq(|d|, i requires 0 <= i < |d| => d[i].0)
  }

  predicate DistinctKeys<K(==), V>(d: seq<(K, V)>)
  {
    forall i, j :: 0 <= i < j < |d| ==> d[i].0 != d[j].0
  }

  /** Python `d.get(k)`. */
  function Get<K(==), V>(d: seq<(K, V)>, k: K): (r: Option<V>)
    ensures r.None? <==> k !in Keys(d)
    ensures r.Some? ==> (k, r.value) in d
  {
    if d == [] then None
    else if d[0].0 == k then Some(d[0].1)
    else
      assert Keys(d) == [d[0].0] + Keys(d[1..]);
      Get(d[1..], k)
  }

  /** The first key of a dict with distinct keys does not come back later. */
  lemma HeadKeyUnique<K, V>(d: seq<(K, V)>)
    requires DistinctKeys(d) && d != []
    ensures d[0].0 !in Keys(d[1..])
  {
    assert forall m :: 0 <= m < |d| - 1 ==> Keys(d[1..])[m] == d[m + 1].0;
  }

  /** In a dict with distinct keys, the entry at position `i` is what `get` finds for its key. */
  lemma {:induction false} GetAt<K, V>(d: seq<(K, V)>, i: nat)
    requires DistinctKeys(d) && i < |d|
    ensures Get(d, d[i].0) == Some(d[i].1)
  {
    if i > 0 {
      GetAt(d[1..], i - 1);
    }
  }

  /** Python `d[k] = v`. */
  function Put<K(==, !new), V>(d: seq<(K, V)>, k: K, v: V): (r: seq<(K, V)>)
    ensures Get(r, k) == Some(v)
    ensures forall j :: j != k ==> Get(r, j) == Get(d, j)
    ensures Keys(r) == if k in Keys(d) then Keys(d) else Keys(d) + [k]
  {
    if d == [] then [(k, v)]
    else
      assert d == [d[0]] + d[1..];
      if d[0].0 == k then
        Cons(d[0], d[1..]);
        Cons((k, v), d[1..]);
        [(k, v)] + d[1..]
      else
        var rest := Put(d[1..], k, v);
        PutBehind(d[0], d[1..], rest, k, v);
        PutBehindKeys(d[0], d[1..], rest, k);
        [d[0]] + rest
  }

  /** Assigning a key that is not the first one leaves the first entry where it is. */
  lemma PutBehind<K, V>(x: (K, V), tail: seq<(K, V)>, rest: seq<(K, V)>, k: K, v: V)
    requires x.0 != k
    requires Get(rest, k) == Some(v)
    requires forall j :: j != k ==> Get(rest, j) == Get(tail, j)
    ensures Get([x] + rest, k) == Some(v)
    ensures forall j :: j != k ==> Get([x] + rest, j) == Get([x] + tail, j)
  {
    ConsGet(x, tail);
    ConsGet(x, rest);
  }

  lemma PutBehindKeys<K, V>(x: (K, V), tail: seq<(K, V)>, rest: seq<(K, V)>, k: K)
    requires x.0 != k
    requires Keys(rest) == if k in Keys(tail) then Keys(tail) else Keys(tail) + [k]
    ensures Keys([x] + rest) == if k in Keys([x] + tail) then Keys([x] + tail) else Keys([x] + tail) + [k]
  {
    ConsKeys(x, tail);
    ConsKeys(x, rest);
    KeysBehind(x.0, Keys(tail), Keys(rest), k);
  }

  lemma KeysBehind<K>(first: K, tail: seq<K>, rest: seq<K>, k: K)
    requires first != k
    requires rest == if k in tail then tail else tail + [k]
    ensures [first] + rest == if k in [first] + tail then [first] + tail else [first] + tail + [k]
  {
    assert [first] + (tail + [k]) == [first] + tail + [k];
  }

  /** A dict with one more entry in front: its keys and what `get` finds. */
  lemma Cons<K, V>(x: (K, V), rest: seq<(K, V)>)
    ensures Keys([x] + rest) == [x.0] + Keys(rest)
    ensures forall j :: Get([x] + rest, j) == if x.0 == j then Some(x.1) else Get(rest, j)
  {
    ConsKeys(x, rest);
    ConsGet(x, rest);
  }

  lemma ConsGet<K, V>(x: (K, V), rest: seq<(K, V)>)
    ensures forall j :: Get([x] + rest, j) == if x.0 == j then Some(x.1) else Get(rest, j)
  {
    assert ([x] + rest)[1..] == rest;
  }

  lemma ConsKeys<K, V>(x: (K, V), rest: seq<(K, V)>)
    ensures Keys([x] + rest) == [x.0] + Keys(rest)
  {
    var l, r := Keys([x] + rest), [x.0] + Keys(rest);
    assert |l| == |r|;
    forall i | 0 <= i < |l| ensures l[i] == r[i] {
      if i > 0 {
        assert ([x] + rest)[i] == rest[i - 1];
      }
    }
  }

  /** After `d[k] = v` every entry is one of `d` or the new one. */
  lemma {:induction false} PutEntries<K(!new), V>(d: seq<(K, V)>, k: K, v: V)
    ensures forall e :: e in Put(d, k, v) ==> e in d || e == (k, v)
    decreases |d|
  {
    if d != [] {
      assert forall e :: e in d[1..] ==> e in d;
      if d[0].0 != k {
        PutEntries(d[1..], k, v);
      }
    }
  }

  /** Assigning a key keeps the keys of a dict distinct. */
  lemma PutDistinct<K(!new), V>(d: seq<(K, V)>, k: K, v: V)
    requires DistinctKeys(d)
    ensures DistinctKeys(Put(d, k, v))
  {
    var r := Put(d, k, v);
    var kr, kd := Keys(r), Keys(d);
    forall i, j | 0 <= i < j < |r| ensures r[i].0 != r[j].0 {
      assert kr[i] == r[i].0 && kr[j] == r[j].0;
      if j < |d| {
        assert kr[i] == kd[i] && kr[j] == kd[j];
      } else {
        assert k !in kd && kr[j] == k && kr[i] == kd[i];
      }
    }
  }

  /** Python `d.update(e)`: the entries of `e` assigned one after the other. */
  function Update<K(==, !new), V>(d: seq<(K, V)>, e: seq<(K, V)>): (r: seq<(K, V)>)
    ensures forall k :: k in Keys(r) <==> k in Keys(d) || k in Keys(e)
    decreases |e|
  {
    if e == [] then d
    else
      var r := Update(Put(d, e[0].0, e[0].1), e[1..]);
      KeysOfTail(e);
      r
  }

  /** A key of a non-empty dict is its first key or a key of the rest. */
  lemma KeysOfTail<K, V>(e: seq<(K, V)>)
    requires e != []
    ensures forall k :: k in Keys(e) <==> k == e[0].0 || k in Keys(e[1..])
  {
    forall k | k in Keys(e[1..]) ensures k in Keys(e) {
      var i :| 0 <= i < |e| - 1 && Keys(e[1..])[i] == k;
      assert Keys(e)[i + 1] == k;
    }
    assert Keys(e)[0] == e[0].0;
  }

  /** `d.update(e)` keeps the keys of `d` distinct. */
  lemma {:induction false} UpdateDistinct<K(!new), V>(d: seq<(K, V)>, e: seq<(K, V)>)
    requires DistinctKeys(d)
    ensures DistinctKeys(Update(d, e))
    decreases |e|
  {
    if e != [] {
      PutDistinct(d, e[0].0, e[0].1);
      UpdateDistinct(Put(d, e[0].0, e[0].1), e[1..]);
    }
  }

  /** After `d.update(e)`, a key of `e` has the value `e` gives it; any other key keeps its value from `d`. */
  lemma {:induction false} UpdateGet<K(!new), V>(d: seq<(K, V)>, e: seq<(K, V)>, k: K)
    requires DistinctKeys(e)
    ensures Get(Update(d, e), k) == if k in Keys(e) then Get(e, k) else Get(d, k)
    decreases |e|
  {
    if e != [] {
      assert Keys(e) == [e[0].0] + Keys(e[1..]);
      var d' := Put(d, e[0].0, e[0].1);
      UpdateGet(d', e[1..], k);
      HeadKeyUnique(e);
    }
  }

  /** `d.update(e)` keeps the keys of `d` where they stand and appends the new keys of `e`. */
  lemma {:induction false} UpdateKeysOrder<K(!new), V>(d: seq<(K, V)>, e: seq<(K, V)>)
    requires forall k :: k in Keys(e) ==> k in Keys(d)
    ensures Keys(Update(d, e)) == Keys(d)
    decreases |e|
  {
    if e != [] {
      assert Keys(e) == [e[0].0] + Keys(e[1..]);
      var d' := Put(d, e[0].0, e[0].1);
      UpdateKeysOrder(d', e[1..]);
    }
  }
}
