/** A multimap table (a key holding any number of values), as the owner
    table of the index uses it: a key is present exactly while it holds at
    least one value, so removing the last value of a key removes the key. */
module Multimap {

  /** The values held under `k`; none when the key is absent. */
  function Values<K(!new), V>(m: map<K, set<V>>, k: K): set<V> {
    if k in m then m[k] else {}
  }

  /** No key is present without a value. */
  ghost predicate Normalized<K(!new), V>(m: map<K, set<V>>) {
    forall k :: k in m ==> m[k] != {}
  }

  /** Adds the pair `(k, v)`; adding a pair already present changes nothing. */
  function Insert<K(!new), V>(m: map<K, set<V>>, k: K, v: V): (r: map<K, set<V>>)
    ensures forall j :: Values(r, j) == if j == k then Values(m, j) + {v} else Values(m, j)
    ensures Normalized(m) ==> Normalized(r)
  {
    m[k := Values(m, k) + {v}]
  }

  /** Removes the pair `(k, v)`, and the key with it when it was the key's
      last value; removing an absent pair changes nothing. */
  function Remove<K(!new), V>(m: map<K, set<V>>, k: K, v: V): (r: map<K, set<V>>)
    ensures forall j :: Values(r, j) == if j == k then Values(m, j) - {v} else Values(m, j)
    ensures Normalized(m) ==> Normalized(r)
  {
    if k !in m then m
    else if m[k] - {v} == {} then m - {k}
    else m[k := m[k] - {v}]
  }

  /** Two normalized multimaps holding the same values under every key are
      the same table. */
  lemma Extensional<K(!new), V>(a: map<K, set<V>>, b: map<K, set<V>>)
    requires Normalized(a) && Normalized(b)
    requires forall k :: Values(a, k) == Values(b, k)
    ensures a == b
  {
    forall k | k in a ensures k in b && a[k] == b[k] {
      assert Values(a, k) == Values(b, k);
    }
    forall k | k in b ensures k in a {
      assert Values(a, k) == Values(b, k);
    }
  }

  /** Removing a pair just inserted gives the table back, when the pair was
      not there before. */
  lemma RemoveInsert<K(!new), V>(m: map<K, set<V>>, k: K, v: V)
    requires Normalized(m) && v !in Values(m, k)
    ensures Remove(Insert(m, k, v), k, v) == m
  {
    var r := Remove(Insert(m, k, v), k, v);
    forall j ensures Values(r, j) == Values(m, j) {
      if j == k {
        assert Values(m, j) + {v} - {v} == Values(m, j);
      }
    }
    Extensional(r, m);
  }

  /** Inserting a pair just removed gives the table back, when the pair was
      there before. */
  lemma InsertRemove<K(!new), V>(m: map<K, set<V>>, k: K, v: V)
    requires Normalized(m) && v in Values(m, k)
    ensures Insert(Remove(m, k, v), k, v) == m
  {
    var r := Insert(Remove(m, k, v), k, v);
    forall j ensures Values(r, j) == Values(m, j) {
      if j == k {
        assert Values(m, j) - {v} + {v} == Values(m, j);
      }
    }
    Extensional(r, m);
  }
}
