/**
  An insertion-ordered dictionary, as Python's built-in `dict` behaves since 3.7:
  a sequence of key/value entries in the order the keys were first inserted.
  Only the operations the summary route uses are modelled: membership, lookup,
  "insert if absent, then update in place", and iteration with `.items()`.
 */
module Assoc {
  import opened Wrappers

  type Dict<K, V> = seq<(K, V)>

  /** The keys in iteration order (`list(d)`). */
  function Keys<K, V>(m: Dict<K, V>): seq<K>
  {
    if |m| == 0 then [] else [m[0].0] + Keys(m[1..])
  }

  /** `d.get(k)`: the value of the first entry with key `k`. */
  function Get<K(==), V>(m: Dict<K, V>, k: K): (r: Option<V>)
    ensures r.Some? <==> k in Keys(m)
  {
    if |m| == 0 then None
    else if m[0].0 == k then Some(m[0].1)
    else Get(m[1..], k)
  }

  /**
    `if k not in d: d[k] = init` followed by `d[k] = f(d[k])`: the key keeps
    the position of its first insertion, and a new key goes to the end.
   */
  function Upsert<K(==), V>(m: Dict<K, V>, k: K, init: V, f: V -> V): Dict<K, V>
  {
    if |m| == 0 then [(k, f(init))]
    else if m[0].0 == k then [(k, f(m[0].1))] + m[1..]
    else [m[0]] + Upsert(m[1..], k, init, f)
  }

  /** `{k: f(k, v) for k, v in d.items()}`, keeping the iteration order. */
  function MapValues<K, V, W>(m: Dict<K, V>, f: (K, V) -> W): Dict<K, W>
  {
    if |m| == 0 then [] else [(m[0].0, f(m[0].0, m[0].1))] + MapValues(m[1..], f)
  }

  /** No key occurs twice, as for every Python dict. */
  predicate DistinctKeys<K(==), V>(m: Dict<K, V>)
  {
    var ks := Keys(m);
    forall i, j :: 0 <= i < j < |ks| ==> ks[i] != ks[j]
  }

  /** Upserting `k` applies `f` to `k`'s old value (or to `init`) and leaves every other key alone. */
  lemma {:induction false} GetUpsert<K, V>(m: Dict<K, V>, k: K, init: V, f: V -> V, j: K)
    ensures Get(Upsert(m, k, init, f), j)
         == if j == k then Some(f(Get(m, k).GetOr(init))) else Get(m, j)
  {
    if |m| != 0 && m[0].0 != k {
      GetUpsert(m[1..], k, init, f, j);
    }
  }

  /** Upserting keeps the key order and appends a key seen for the first time. */
  lemma {:induction false} KeysUpsert<K, V>(m: Dict<K, V>, k: K, init: V, f: V -> V)
    ensures Keys(Upsert(m, k, init, f)) == if k in Keys(m) then Keys(m) else Keys(m) + [k]
  {
    if |m| != 0 && m[0].0 != k {
      KeysUpsert(m[1..], k, init, f);
      assert Keys(m) == [m[0].0] + Keys(m[1..]);
    }
  }

  /** Mapping the values keeps the keys and their order. */
  lemma {:induction false} KeysMapValues<K, V, W>(m: Dict<K, V>, f: (K, V) -> W)
    ensures Keys(MapValues(m, f)) == Keys(m)
  {
    if |m| != 0 {
      KeysMapValues(m[1..], f);
    }
  }

  /** Looking up a mapped dictionary is mapping the looked-up value. */
  lemma {:induction false} GetMapValues<K, V, W>(m: Dict<K, V>, f: (K, V) -> W, k: K)
    ensures Get(MapValues(m, f), k)
         == if Get(m, k).Some? then Some(f(k, Get(m, k).value)) else None
  {
    if |m| != 0 && m[0].0 != k {
      GetMapValues(m[1..], f, k);
    }
  }
}
