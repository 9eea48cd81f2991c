/**
 * The two keyed writes the document store offers the handlers, on a collection
 * modelled as a finite map from its unique key to the stored document.
 */
module Collections {

  /**
   * `findOneAndUpdate(filter, doc, {upsert: true})`: create the document under `k`
   * when there is none, replace it when there is one. Every other key keeps its document.
   */
  function Upsert<K, V>(m: map<K, V>, k: K, v: V): (m': map<K, V>)
    ensures m'.Keys == m.Keys + {k}
    ensures k in m' && m'[k] == v
    ensures forall j :: j in m && j != k ==> j in m' && m'[j] == m[j]
  {
    m[k := v]
  }

  /**
   * `findOneAndUpdate(filter, doc)` without `upsert`: replace the document under `k`
   * when there is one, and change nothing when there is none.
   */
  function UpdateExisting<K, V>(m: map<K, V>, k: K, v: V): (m': map<K, V>)
    ensures m'.Keys == m.Keys
    ensures k in m ==> m'[k] == v
    ensures forall j :: j in m && j != k ==> m'[j] == m[j]
  {
    if k in m then m[k := v] else m
  }

  /** Repeating an upsert with the same document changes nothing. */
  lemma UpsertIdempotent<K, V>(m: map<K, V>, k: K, v: V)
    ensures Upsert(Upsert(m, k, v), k, v) == Upsert(m, k, v)
  {
  }

  /** Of two upserts under one key, the later one wins. */
  lemma UpsertLastWins<K, V>(m: map<K, V>, k: K, v1: V, v2: V)
    ensures Upsert(Upsert(m, k, v1), k, v2) == Upsert(m, k, v2)
  {
  }

  /** An update of a key that is present is the same write as an upsert. */
  lemma UpdateExistingIsUpsert<K, V>(m: map<K, V>, k: K, v: V)
    requires k in m
    ensures UpdateExisting(m, k, v) == Upsert(m, k, v)
  {
  }
}
