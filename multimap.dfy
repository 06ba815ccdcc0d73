/** An insertion-ordered multimap: the `defaultdict(list)` the importer
    appends to, both for its per-component usage statistics and for the
    orientation buckets of the point-instancing pass. */
module Multimap {
  import opened Common

  /** `order` lists the keys in the order they were first appended to;
      `lists` holds the values appended under each key, oldest first. */
  datatype Multi<K, V> = Multi(order: seq<K>, lists: map<K, seq<V>>)

  ghost predicate Valid<K(!new), V>(m: Multi<K, V>) {
    Distinct(m.order) && forall k :: k in m.lists <==> k in m.order
  }

  function Empty<K(!new), V>(): (r: Multi<K, V>)
    ensures Valid(r)
  {
    Multi([], map[])
  }

  /** The list under `k`; a key never appended to reads as the empty list. */
  function Get<K, V>(m: Multi<K, V>, k: K): seq<V> {
    if k in m.lists then m.lists[k] else []
  }

  /** `d[k].append(v)` on a `defaultdict(list)`. */
  function Append<K(!new), V>(m: Multi<K, V>, k: K, v: V): (r: Multi<K, V>)
    ensures Valid(m) ==> Valid(r)
    ensures Get(r, k) == Get(m, k) + [v]
    ensures forall k' :: k' != k ==> Get(r, k') == Get(m, k')
    ensures r.order == if k in m.lists then m.order else m.order + [k]
  {
    Multi(if k in m.lists then m.order else m.order + [k], m.lists[k := Get(m, k) + [v]])
  }

  /** Appending each pair of `ps` in turn. */
  function AppendAll<K(!new), V>(m: Multi<K, V>, ps: seq<(K, V)>): Multi<K, V> {
    if ps == [] then m
    else Append(AppendAll(m, ps[..|ps| - 1]), ps[|ps| - 1].0, ps[|ps| - 1].1)
  }

  function KeysOf<K, V>(ps: seq<(K, V)>): seq<K> {
    if ps == [] then [] else KeysOf(ps[..|ps| - 1]) + [ps[|ps| - 1].0]
  }

  /** The values of the pairs whose key is `k`, in order. */
  function ValuesFor<K(==), V>(ps: seq<(K, V)>, k: K): seq<V> {
    if ps == [] then []
    else ValuesFor(ps[..|ps| - 1], k) + (if ps[|ps| - 1].0 == k then [ps[|ps| - 1].1] else [])
  }

  /** The sum of the list lengths under `keys`. */
  function SizeOver<K, V>(keys: seq<K>, m: Multi<K, V>): nat {
    if keys == [] then 0 else SizeOver(keys[..|keys| - 1], m) + |Get(m, keys[|keys| - 1])|
  }

  /** The number of values held, over all keys. */
  function Total<K, V>(m: Multi<K, V>): nat {
    SizeOver(m.order, m)
  }

  lemma {:induction false} AppendAllConcat<K(!new), V>(m: Multi<K, V>, a: seq<(K, V)>, b: seq<(K, V)>)
    ensures AppendAll(m, a + b) == AppendAll(AppendAll(m, a), b)
    decreases |b|
  {
    if b == [] {
      assert a + b == a;
    } else {
      AppendAllConcat(m, a, b[..|b| - 1]);
      ConcatInit(a, b);
    }
  }

  /** Appending one more pair of a sequence. */
  lemma AppendAllSnoc<K(!new), V>(m: Multi<K, V>, ps: seq<(K, V)>, i: nat)
    requires i < |ps|
    ensures AppendAll(m, ps[..i + 1]) == Append(AppendAll(m, ps[..i]), ps[i].0, ps[i].1)
  {
    assert ps[..i + 1][..i] == ps[..i];
  }

  lemma {:induction false} AppendAllValid<K(!new), V>(m: Multi<K, V>, ps: seq<(K, V)>)
    requires Valid(m)
    ensures Valid(AppendAll(m, ps))
    decreases |ps|
  {
    if ps != [] {
      AppendAllValid(m, ps[..|ps| - 1]);
    }
  }

  /** Appending a batch of pairs keeps the keys in first-seen order. */
  lemma {:induction false} AppendAllOrder<K(!new), V>(m: Multi<K, V>, ps: seq<(K, V)>)
    requires Valid(m)
    ensures AppendAll(m, ps).order == FirstSeen(m.order + KeysOf(ps))
    decreases |ps|
  {
    if ps == [] {
      assert m.order + KeysOf(ps) == m.order;
      FirstSeenOfDistinct(m.order);
    } else {
      var init := ps[..|ps| - 1];
      var last := ps[|ps| - 1];
      AppendAllOrder(m, init);
      AppendAllValid(m, init);
      var r0 := AppendAll(m, init);
      assert last.0 in r0.lists <==> last.0 in FirstSeen(m.order + KeysOf(init));
      assert m.order + KeysOf(ps) == (m.order + KeysOf(init)) + [last.0];
      FirstSeenSnoc(m.order + KeysOf(init), last.0);
    }
  }

  /** Appending a batch of pairs grows every key's list by exactly the values
      paired with that key, in order, and touches nothing else. */
  lemma {:induction false} AppendAllGet<K(!new), V>(m: Multi<K, V>, ps: seq<(K, V)>, k: K)
    ensures Get(AppendAll(m, ps), k) == Get(m, k) + ValuesFor(ps, k)
    decreases |ps|
  {
    if ps != [] {
      var init := ps[..|ps| - 1];
      AppendAllGet(m, init, k);
    }
  }

  lemma {:induction false} SizeOverFrame<K, V>(keys: seq<K>, m: Multi<K, V>, m': Multi<K, V>)
    requires forall i :: 0 <= i < |keys| ==> |Get(m, keys[i])| == |Get(m', keys[i])|
    ensures SizeOver(keys, m) == SizeOver(keys, m')
    decreases |keys|
  {
    if keys != [] {
      SizeOverFrame(keys[..|keys| - 1], m, m');
    }
  }

  lemma {:induction false} SizeOverBump<K, V>(keys: seq<K>, m: Multi<K, V>, m': Multi<K, V>, k: K)
    requires Distinct(keys) && k in keys
    requires |Get(m', k)| == |Get(m, k)| + 1
    requires forall i :: 0 <= i < |keys| && keys[i] != k ==> |Get(m, keys[i])| == |Get(m', keys[i])|
    ensures SizeOver(keys, m') == SizeOver(keys, m) + 1
    decreases |keys|
  {
    var init := keys[..|keys| - 1];
    if keys[|keys| - 1] == k {
      assert k !in init;
      SizeOverFrame(init, m, m');
    } else {
      SizeOverBump(init, m, m', k);
    }
  }

  /** Every append adds exactly one value: nothing is lost or duplicated. */
  lemma AppendTotal<K(!new), V>(m: Multi<K, V>, k: K, v: V)
    requires Valid(m)
    ensures Total(Append(m, k, v)) == Total(m) + 1
  {
    var r := Append(m, k, v);
    if k in m.lists {
      SizeOverBump(m.order, m, r, k);
    } else {
      assert r.order == m.order + [k];
      assert r.order[..|r.order| - 1] == m.order;
      SizeOverFrame(m.order, m, r);
    }
  }

  lemma {:induction false} AppendAllTotal<K(!new), V>(m: Multi<K, V>, ps: seq<(K, V)>)
    requires Valid(m)
    ensures Total(AppendAll(m, ps)) == Total(m) + |ps|
    decreases |ps|
  {
    if ps != [] {
      var init := ps[..|ps| - 1];
      AppendAllTotal(m, init);
      AppendAllValid(m, init);
      AppendTotal(AppendAll(m, init), ps[|ps| - 1].0, ps[|ps| - 1].1);
    }
  }
}
