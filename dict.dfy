/** A Python `dict` with string keys, as the list of its (key, value) pairs
    in insertion order, so that iteration order is explicit. */
module Dict {
  import opened Wrappers

  type Dict<V> = seq<(string, V)>

  /** The keys, in insertion order (`list(d.keys())`). */
  function Keys<V>(d: Dict<V>): (ks: seq<string>)
    ensures |ks| == |d|
    ensures forall i :: 0 <= i < |d| ==> ks[i] == d[i].0
  {
    seq(|d|, i requires 0 <= i < |d| => d[i].0)
  }

  /** Appending a pair appends its key. */
  lemma KeysAppend<V>(d: Dict<V>, k: string, v: V)
    ensures Keys(d + [(k, v)]) == Keys(d) + [k]
  {
    assert forall i :: 0 <= i < |d| ==> (d + [(k, v)])[i] == d[i];
  }

  /** Assigning two new keys appends them, in order. */
  lemma SetTwoNewKeys<V>(d: Dict<V>, k1: string, v1: V, k2: string, v2: V)
    requires k1 !in Keys(d) && k2 !in Keys(d) && k1 != k2
    ensures Keys(Set(Set(d, k1, v1), k2, v2)) == Keys(d) + [k1, k2]
  {
    var once := Set(d, k1, v1);
    KeysAppend(d, k1, v1);
    assert k2 !in Keys(once);
    KeysAppend(once, k2, v2);
    assert Keys(d) + [k1] + [k2] == Keys(d) + [k1, k2];
  }

  /** The keys after `d[k] = v`: unchanged for an existing key, `k`
      appended for a new one. */
  lemma SetKeys<V>(d: Dict<V>, k: string, v: V)
    ensures Keys(Set(d, k, v)) == if k in Keys(d) then Keys(d) else Keys(d) + [k]
  {
    if k !in Keys(d) {
      KeysAppend(d, k, v);
    }
  }

  /** No key occurs twice, as in every dict Python builds. */
  predicate DistinctKeys<V>(d: Dict<V>) {
    forall i, j :: 0 <= i < j < |d| ==> d[i].0 != d[j].0
  }

  /** `d.get(k)`: the value stored under `k`, if any. */
  function Get<V>(d: Dict<V>, k: string): (r: Option<V>)
    ensures r.None? <==> k !in Keys(d)
    ensures r.Some? ==> (k, r.value) in d
  {
    if d == [] then None
    else if d[0].0 == k then Some(d[0].1)
    else Get(d[1..], k)
  }

  /** `d.get(k, default)`. */
  function GetOr<V>(d: Dict<V>, k: string, default: V): V {
    Get(d, k).GetOr(default)
  }

  /** `d[k] = v`: an existing key keeps its position and gets the new value;
      a new key is appended at the end. */
  function Set<V>(d: Dict<V>, k: string, v: V): (r: Dict<V>)
    ensures Get(r, k) == Some(v)
    ensures forall k' :: k' != k ==> Get(r, k') == Get(d, k')
    ensures k !in Keys(d) ==> r == d + [(k, v)]
    ensures k in Keys(d) ==> Keys(r) == Keys(d)
  {
    if d == [] then [(k, v)]
    else if d[0].0 == k then
      SetFirst(d, v);
      [(k, v)] + d[1..]
    else
      var rest := Set(d[1..], k, v);
      SetBehindKeys(d, k, v, rest);
      SetBehindGet(d, k, v, rest);
      [d[0]] + rest
  }

  /** `Get` on a dict with a pair in front. */
  lemma GetCons<V>(x: (string, V), d: Dict<V>, k: string)
    ensures Get([x] + d, k) == if x.0 == k then Some(x.1) else Get(d, k)
  {
    assert ([x] + d)[1..] == d;
  }

  /** Assigning the first key replaces its value in place. */
  lemma SetFirst<V>(d: Dict<V>, v: V)
    requires d != []
    ensures var r, k := [(d[0].0, v)] + d[1..], d[0].0;
      Get(r, k) == Some(v) && (forall k' :: k' != k ==> Get(r, k') == Get(d, k'))
      && k in Keys(d) && Keys(r) == Keys(d)
  {
    var k := d[0].0;
    assert d == [d[0]] + d[1..];
    forall k' ensures Get([(k, v)] + d[1..], k') == if k' == k then Some(v) else Get(d, k') {
      GetCons((k, v), d[1..], k');
      GetCons(d[0], d[1..], k');
    }
    KeysCons((k, v), d[1..]);
    KeysCons(d[0], d[1..]);
  }

  /** Assigning a later key keeps the first pair in front of the updated
      rest: the keys. */
  lemma SetBehindKeys<V>(d: Dict<V>, k: string, v: V, rest: Dict<V>)
    requires d != [] && d[0].0 != k
    requires k !in Keys(d[1..]) ==> rest == d[1..] + [(k, v)]
    requires k in Keys(d[1..]) ==> Keys(rest) == Keys(d[1..])
    ensures var r := [d[0]] + rest;
      (k !in Keys(d) ==> r == d + [(k, v)]) && (k in Keys(d) ==> Keys(r) == Keys(d))
  {
    var r := [d[0]] + rest;
    assert d == [d[0]] + d[1..];
    KeysCons(d[0], d[1..]);
    if k !in Keys(d) {
      assert k !in Keys(d[1..]);
      assert r == d + [(k, v)];
    } else {
      KeysCons(d[0], rest);
    }
  }

  /** The same, for the values. */
  lemma SetBehindGet<V>(d: Dict<V>, k: string, v: V, rest: Dict<V>)
    requires d != [] && d[0].0 != k
    requires Get(rest, k) == Some(v)
    requires forall k' :: k' != k ==> Get(rest, k') == Get(d[1..], k')
    ensures var r := [d[0]] + rest;
      Get(r, k) == Some(v) && (forall k' :: k' != k ==> Get(r, k') == Get(d, k'))
  {
    var r := [d[0]] + rest;
    assert d == [d[0]] + d[1..];
    GetCons(d[0], rest, k);
    forall k' | k' != k ensures Get(r, k') == Get(d, k') {
      GetCons(d[0], rest, k');
      GetCons(d[0], d[1..], k');
    }
  }

  /** The keys of a dict with a pair in front. */
  lemma KeysCons<V>(x: (string, V), d: Dict<V>)
    ensures Keys([x] + d) == [x.0] + Keys(d)
  {
    var a, b := Keys([x] + d), [x.0] + Keys(d);
    forall i | 0 <= i < |a| ensures a[i] == b[i] {
      if i > 0 {
        assert ([x] + d)[i] == d[i - 1];
      }
    }
  }

  /** Assigning a key other than the first one leaves the first pair in
      front. */
  lemma SetCons<V>(x: (string, V), d: Dict<V>, k: string, v: V)
    requires x.0 != k
    ensures Set([x] + d, k, v) == [x] + Set(d, k, v)
  {
    assert ([x] + d)[1..] == d;
  }

  lemma AppendUnderHead<V>(d: Dict<V>, x: (string, V))
    requires d != []
    ensures d + [x] == [d[0]] + (d[1..] + [x])
  {
  }

  /** Assigning a key that is already the last one, after keys that differ
      from it, replaces just that last pair. */
  lemma {:induction false} SetLast<V>(d: Dict<V>, k: string, old_v: V, v: V)
    requires k !in Keys(d)
    ensures Set(d + [(k, old_v)], k, v) == d + [(k, v)]
  {
    if d != [] {
      assert d[0].0 != k && k !in Keys(d[1..]) by {
        assert d == [d[0]] + d[1..];
        KeysCons(d[0], d[1..]);
      }
      SetLast(d[1..], k, old_v, v);
      AppendUnderHead(d, (k, old_v));
      AppendUnderHead(d, (k, v));
      SetCons(d[0], d[1..] + [(k, old_v)], k, v);
    }
  }
}
