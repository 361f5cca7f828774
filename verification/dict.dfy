/** Option, and an insertion-ordered dictionary with the semantics of a
    Python `dict`: assigning to an existing key replaces its value in place,
    assigning to a new key appends it, and iteration follows insertion order. */
module Wrappers {

  datatype Option<+T> = None | Some(value: T)
}

module Dict {
  import opened Wrappers
  import opened Seqs

  /** The entries of a dictionary in insertion order. */
  type Dict<K, V> = seq<(K, V)>

  function Keys<K, V>(d: Dict<K, V>): (ks: seq<K>)
    ensures |ks| == |d|
    ensures forall i :: 0 <= i < |d| ==> ks[i] == d[i].0
  {
    seq(|d|, i requires 0 <= i < |d| => d[i].0)
  }

  function Values<K, V>(d: Dict<K, V>): (vs: seq<V>)
    ensures |vs| == |d|
    ensures forall i :: 0 <= i < |d| ==> vs[i] == d[i].1
  {
    seq(|d|, i requires 0 <= i < |d| => d[i].1)
  }

  /** `d[k]` when present (the first entry for `k`). */
  function Get<K(==), V>(d: Dict<K, V>, k: K): (r: Option<V>)
    ensures r.Some? <==> k in Keys(d)
    ensures r.Some? ==> (k, r.value) in d
  {
    if |d| == 0 then None
    else if d[0].0 == k then Some(d[0].1)
    else
      assert Keys(d) == [d[0].0] + Keys(d[1..]);
      Get(d[1..], k)
  }

  /** `d.get(k, default)`. */
  function GetOr<K(==), V>(d: Dict<K, V>, k: K, default: V): (v: V)
    ensures k !in Keys(d) ==> v == default
    ensures k in Keys(d) ==> (k, v) in d
  {
    match Get(d, k)
    case Some(v) => v
    case None => default
  }

  /** In a dictionary with distinct keys, every entry is what a lookup of its key returns. */
  lemma {:induction false} GetEntry<K, V>(d: Dict<K, V>, i: nat)
    requires Distinct(Keys(d)) && i < |d|
    ensures Get(d, d[i].0) == Some(d[i].1)
  {
    if i > 0 {
      assert Keys(d[1..]) == Keys(d)[1..];
      assert d[0].0 != d[i].0 by { assert Keys(d)[0] != Keys(d)[i]; }
      GetEntry(d[1..], i - 1);
    }
  }

  /** Looking up in a dictionary with a first entry `h`. */
  lemma PrependEntry<K, V>(h: (K, V), t: Dict<K, V>)
    ensures Keys([h] + t) == [h.0] + Keys(t)
    ensures forall k :: Get([h] + t, k) == if h.0 == k then Some(h.1) else Get(t, k)
  {
    PrependKeys(h, t);
    forall k
      ensures Get([h] + t, k) == if h.0 == k then Some(h.1) else Get(t, k)
    {
      PrependGet(h, t, k);
    }
  }

  /** The keys of a dictionary with a first entry `h`. */
  lemma PrependKeys<K, V>(h: (K, V), t: Dict<K, V>)
    ensures Keys([h] + t) == [h.0] + Keys(t)
  {
    var d := [h] + t;
    var ks, kt := Keys(d), [h.0] + Keys(t);
    forall i | 0 <= i < |ks|
      ensures ks[i] == kt[i]
    {
      if i > 0 {
        assert d[i] == t[i - 1];
      }
    }
    assert ks == kt;
  }

  /** A lookup of `k` in a dictionary with a first entry `h`. */
  lemma PrependGet<K, V>(h: (K, V), t: Dict<K, V>, k: K)
    ensures Get([h] + t, k) == if h.0 == k then Some(h.1) else Get(t, k)
  {
    var d := [h] + t;
    assert d[0] == h && d[1..] == t;
  }

  /** `d[k] = v`: replaces the value of an existing key in place, appends a new key. */
  function Put<K(==,!new), V>(d: Dict<K, V>, k: K, v: V): (r: Dict<K, V>)
    ensures k in Keys(d) ==> Keys(r) == Keys(d)
    ensures k !in Keys(d) ==> Keys(r) == Keys(d) + [k]
    ensures Get(r, k) == Some(v)
    ensures forall k' :: k' != k ==> Get(r, k') == Get(d, k')
  {
    if |d| == 0 then [(k, v)]
    else if d[0].0 == k then
      PutFirst(d, k, v);
      [(k, v)] + d[1..]
    else
      var tail := Put(d[1..], k, v);
      PutBehindKeys(d, k, tail);
      PutBehindGet(d, k, v, tail);
      [d[0]] + tail
  }

  /** Overwriting the first entry keeps the keys and changes only the lookup of `k`. */
  lemma PutFirst<K, V>(d: Dict<K, V>, k: K, v: V)
    requires |d| > 0 && d[0].0 == k
    ensures Keys([(k, v)] + d[1..]) == Keys(d)
    ensures Get([(k, v)] + d[1..], k) == Some(v)
    ensures forall k' :: k' != k ==> Get([(k, v)] + d[1..], k') == Get(d, k')
  {
    assert d == [d[0]] + d[1..];
    PrependEntry((k, v), d[1..]);
    PrependEntry(d[0], d[1..]);
  }

  /** Putting `k` behind a first entry of another key: the keys of the put on
      the rest, `tail`, carry over to the whole dictionary. */
  lemma PutBehindKeys<K, V>(d: Dict<K, V>, k: K, tail: Dict<K, V>)
    requires |d| > 0 && d[0].0 != k
    requires k in Keys(d[1..]) ==> Keys(tail) == Keys(d[1..])
    requires k !in Keys(d[1..]) ==> Keys(tail) == Keys(d[1..]) + [k]
    ensures k in Keys(d) ==> Keys([d[0]] + tail) == Keys(d)
    ensures k !in Keys(d) ==> Keys([d[0]] + tail) == Keys(d) + [k]
  {
    var h, t := d[0], d[1..];
    assert d == [h] + t;
    PrependKeys(h, t);
    PrependKeys(h, tail);
    assert k in Keys(d) <==> k in Keys(t);
    if k !in Keys(t) {
      assert [h.0] + (Keys(t) + [k]) == ([h.0] + Keys(t)) + [k];
    }
  }

  /** Putting `k` behind a first entry of another key: the lookups of the put
      on the rest, `tail`, carry over to the whole dictionary. */
  lemma PutBehindGet<K, V>(d: Dict<K, V>, k: K, v: V, tail: Dict<K, V>)
    requires |d| > 0 && d[0].0 != k
    requires Get(tail, k) == Some(v)
    requires forall k' :: k' != k ==> Get(tail, k') == Get(d[1..], k')
    ensures Get([d[0]] + tail, k) == Some(v)
    ensures forall k' :: k' != k ==> Get([d[0]] + tail, k') == Get(d, k')
  {
    var h, t := d[0], d[1..];
    assert d == [h] + t;
    PrependGet(h, tail, k);
    forall k' | k' != k
      ensures Get([h] + tail, k') == Get(d, k')
    {
      PrependGet(h, t, k');
      PrependGet(h, tail, k');
    }
  }
}
