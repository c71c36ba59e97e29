/** The value-level view of an in-memory table store: a map from table name to a
    map from record id to record, and the operations the stores perform on it. */
module Store {
  import opened Wrappers

  type Tables<K, R> = map<string, map<K, R>>

  /** `_data.get(table, {}).get(id)`: the record stored under `(table, id)`, if any. */
  function Lookup<K(!new), R>(s: Tables<K, R>, table: string, id: K): Option<R>
  {
    if table in s && id in s[table] then Some(s[table][id]) else None
  }

  /** `if table not in _data: _data[table] = {}`: the table exists afterwards, and no lookup changes. */
  function WithTable<K(!new), R>(s: Tables<K, R>, table: string): (r: Tables<K, R>)
    ensures r.Keys == s.Keys + {table}
    ensures table in s ==> r == s
    ensures table !in s ==> r[table] == map[]
    ensures forall t, k :: Lookup(r, t, k) == Lookup(s, t, k)
  {
    if table in s then s else s[table := map[]]
  }

  /** `_data[table][id] = rec` on an existing table: that entry holds `rec`, no other entry changes. */
  function Put<K(!new), R>(s: Tables<K, R>, table: string, id: K, rec: R): (r: Tables<K, R>)
    requires table in s
    ensures r.Keys == s.Keys
    ensures Lookup(r, table, id) == Some(rec)
    ensures forall t, k :: t != table || k != id ==> Lookup(r, t, k) == Lookup(s, t, k)
  {
    s[table := s[table][id := rec]]
  }

  /** `del _data[table][id]` on an existing entry: that entry is gone, every table stays, no other entry changes. */
  function Remove<K(!new), R>(s: Tables<K, R>, table: string, id: K): (r: Tables<K, R>)
    requires Lookup(s, table, id).Some?
    ensures r.Keys == s.Keys
    ensures Lookup(r, table, id) == None
    ensures forall t, k :: t != table || k != id ==> Lookup(r, t, k) == Lookup(s, t, k)
  {
    s[table := s[table] - {id}]
  }

  /** Python's `dict.update`: every key of `patch` takes the patch's value, every other key keeps its value. */
  function Patched<F, V>(rec: map<F, V>, patch: map<F, V>): (r: map<F, V>)
    ensures r.Keys == rec.Keys + patch.Keys
    ensures forall f :: f in patch ==> r[f] == patch[f]
    ensures forall f :: f in rec && f !in patch ==> r[f] == rec[f]
  {
    rec + patch
  }

  /** `_data[table][id].update(patch)` on an existing entry: the record is patched, no other entry changes. */
  function Merge<K(!new), F, V>(s: Tables<K, map<F, V>>, table: string, id: K, patch: map<F, V>): (r: Tables<K, map<F, V>>)
    requires Lookup(s, table, id).Some?
    ensures r.Keys == s.Keys
    ensures Lookup(r, table, id) == Some(Patched(s[table][id], patch))
    ensures forall t, k :: t != table || k != id ==> Lookup(r, t, k) == Lookup(s, t, k)
  {
    Put(s, table, id, Patched(s[table][id], patch))
  }

  /** Setting one key after a patch is the patch extended with that key. */
  lemma PatchedThenSet<F, V>(rec: map<F, V>, patch: map<F, V>, f: F, v: V)
    ensures Patched(rec, patch)[f := v] == Patched(rec, patch[f := v])
  {
  }
}
