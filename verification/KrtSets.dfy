/** Maps from a key to a non-empty set of object keys, as the engine's indexes keep them. */
module KrtSets {
  import opened KrtTypes

  function Members<K>(m: map<K, set<Key>>, k: K): set<Key> {
    if k in m then m[k] else {}
  }

  /** InsertOrNew of v under every key of ks. */
  function InsertAt<K>(m: map<K, set<Key>>, ks: set<K>, v: Key): map<K, set<Key>> {
    map k | k in m.Keys + ks :: Members(m, k) + if k in ks then {v} else {}
  }

  /** DeleteCleanupLast of v under every key of ks: an emptied set is dropped. */
  function RemoveAt<K>(m: map<K, set<Key>>, ks: set<K>, v: Key): map<K, set<Key>> {
    map k | k in m && !(k in ks && m[k] <= {v}) :: if k in ks then m[k] - {v} else m[k]
  }

  lemma InsertAtOneMore<K>(m: map<K, set<Key>>, ks: set<K>, k: K, v: Key)
    ensures InsertAt(m, ks + {k}, v) == InsertAt(m, ks, v)[k := Members(InsertAt(m, ks, v), k) + {v}]
  {
    var a, r := InsertAt(m, ks + {k}, v), InsertAt(m, ks, v);
    var b := r[k := Members(r, k) + {v}];
    assert a.Keys == b.Keys;
    forall n | n in a ensures a[n] == b[n] {
    }
  }

  lemma RemoveAtOneMore<K>(m: map<K, set<Key>>, ks: set<K>, k: K, v: Key)
    ensures
      var r := RemoveAt(m, ks, v);
      RemoveAt(m, ks + {k}, v) == if Members(r, k) <= {v} then r - {k} else r[k := r[k] - {v}]
  {
    var a, r := RemoveAt(m, ks + {k}, v), RemoveAt(m, ks, v);
    var b := if Members(r, k) <= {v} then r - {k} else r[k := r[k] - {v}];
    assert a.Keys == b.Keys;
    forall n | n in a ensures a[n] == b[n] {
    }
  }

  lemma InsertAtTwice<K>(m: map<K, set<Key>>, ks: set<K>, ks': set<K>, v: Key)
    ensures InsertAt(InsertAt(m, ks, v), ks', v) == InsertAt(m, ks + ks', v)
  {
    var r := InsertAt(m, ks, v);
    var a, b := InsertAt(r, ks', v), InsertAt(m, ks + ks', v);
    assert a.Keys == b.Keys;
    forall n | n in a ensures a[n] == b[n] {
      assert Members(r, n) == Members(m, n) + if n in ks then {v} else {};
    }
  }

  lemma RemoveAtTwice<K>(m: map<K, set<Key>>, ks: set<K>, ks': set<K>, v: Key)
    ensures RemoveAt(RemoveAt(m, ks, v), ks', v) == RemoveAt(m, ks + ks', v)
  {
    var a, b := RemoveAt(RemoveAt(m, ks, v), ks', v), RemoveAt(m, ks + ks', v);
    assert a.Keys == b.Keys;
    forall n | n in a ensures a[n] == b[n] {
    }
  }

  lemma NothingToInsert<K>(m: map<K, set<Key>>, v: Key)
    ensures InsertAt(m, {}, v) == m && RemoveAt(m, {}, v) == m
  {
    var a := InsertAt(m, {}, v);
    assert a.Keys == m.Keys;
    forall n | n in a ensures a[n] == m[n] {
    }
  }
}
