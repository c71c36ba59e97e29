/** Python `dict` records as heap objects, and what ties a store's nested dictionary
    of record objects to its value-level contents. */
module Records {
  import opened PyValues
  import Store

  /** A `dict` object. The stores keep their own copies; `get` hands out the stored object itself. */
  class Record {
    var fields: Dict

    constructor (fields: Dict)
      ensures this.fields == fields
    {
      this.fields := fields;
    }
  }

  /** The `_data` attribute: table name to (record id to record object). */
  type Data = map<string, map<Value, Record>>

  /** The record objects held by the store. */
  ghost function Objects(data: Data): set<Record>
  {
    set t, k | t in data && k in data[t] :: data[t][k]
  }

  /** No record object sits under two entries. The stores keep this, since every
      record they store is a freshly made dictionary. */
  ghost predicate Distinct(data: Data)
  {
    forall t1, k1, t2, k2 ::
      t1 in data && k1 in data[t1] && t2 in data && k2 in data[t2] && data[t1][k1] == data[t2][k2]
      ==> t1 == t2 && k1 == k2
  }

  /** `contents` has the tables and ids of `data`, and under each entry the fields of the object stored there. */
  ghost predicate Mirrors(data: Data, contents: Store.Tables<Value, Dict>)
    reads Objects(data)
  {
    && contents.Keys == data.Keys
    && (forall t :: t in data ==> contents[t].Keys == data[t].Keys)
    && (forall t, k :: t in data && k in data[t] ==> contents[t][k] == data[t][k].fields)
  }

  /** The fields of every stored object, table by table: what every `get` would show. */
  ghost function Fields(data: Data): (c: Store.Tables<Value, Dict>)
    reads Objects(data)
    ensures Mirrors(data, c)
  {
    map t | t in data :: map k | k in data[t] :: data[t][k].fields
  }

  /** The fields are all that a mirror can be: any `c` in step with `data` is `Fields(data)`. */
  lemma {:induction false} MirrorIsFields(data: Data, c: Store.Tables<Value, Dict>)
    requires Mirrors(data, c)
    ensures c == Fields(data)
  {
    var f := Fields(data);
    forall t | t in c
      ensures c[t] == f[t]
    {
      assert c[t].Keys == f[t].Keys;
    }
  }

  /** Every entry of `d` holds the same object in `d'`: what a caller got from `get` is still stored. */
  ghost predicate Keeps(d: Data, d': Data)
  {
    forall t, k :: t in d && k in d[t] ==> t in d' && k in d'[t] && d'[t][k] == d[t][k]
  }

  /** Every entry of `d` other than `(t, k)` holds the same object in `d'`. */
  ghost predicate KeepsBut(d: Data, d': Data, t: string, k: Value)
  {
    forall t', k' :: t' in d && k' in d[t'] && (t' != t || k' != k) ==> t' in d' && k' in d'[t'] && d'[t'][k'] == d[t'][k']
  }

  /** Creating a table, when it is missing, keeps every entry. */
  lemma KeepsWithTable(d: Data, t: string)
    ensures Keeps(d, if t in d then d else d[t := map[]])
  {
  }

  /** Storing under one entry keeps every other entry that was kept. */
  lemma KeepsButPut(d0: Data, d: Data, t: string, k: Value, r: Record)
    requires Keeps(d0, d) && t in d
    ensures KeepsBut(d0, d[t := d[t][k := r]], t, k)
  {
  }

  /** Dropping one entry keeps every other entry. */
  lemma KeepsButRemove(d: Data, t: string, k: Value)
    requires t in d
    ensures KeepsBut(d, d[t := d[t] - {k}], t, k)
  {
  }

  /** Storing an object that the store does not hold yet keeps the objects distinct. */
  lemma DistinctPut(d: Data, t: string, k: Value, r: Record)
    requires Distinct(d) && t in d && r !in Objects(d)
    ensures Distinct(d[t := d[t][k := r]])
  {
    var d' := d[t := d[t][k := r]];
    forall t1, k1, t2, k2 | t1 in d' && k1 in d'[t1] && t2 in d' && k2 in d'[t2] && d'[t1][k1] == d'[t2][k2]
      ensures t1 == t2 && k1 == k2
    {
      if t1 != t || k1 != k {
        assert d'[t1][k1] == d[t1][k1] && d[t1][k1] in Objects(d);
      }
      if t2 != t || k2 != k {
        assert d'[t2][k2] == d[t2][k2] && d[t2][k2] in Objects(d);
      }
    }
  }

  /** Adding an empty table keeps the objects distinct. */
  lemma DistinctWithTable(d: Data, t: string)
    requires Distinct(d) && t !in d
    ensures Distinct(d[t := map[]])
  {
  }

  /** Dropping an entry keeps the objects distinct. */
  lemma DistinctRemove(d: Data, t: string, k: Value)
    requires Distinct(d) && t in d
    ensures Distinct(d[t := d[t] - {k}])
  {
  }

  /** Creating a missing table in both keeps them in step. */
  lemma MirrorsWithTable(d: Data, c: Store.Tables<Value, Dict>, t: string)
    requires Mirrors(d, c) && t !in d
    ensures Mirrors(d[t := map[]], Store.WithTable(c, t))
  {
  }

  /** Storing an object in `d` and its fields in `c` under the same entry keeps them in step. */
  lemma MirrorsPut(d: Data, c: Store.Tables<Value, Dict>, t: string, k: Value, r: Record)
    requires Mirrors(d, c) && t in d
    ensures Mirrors(d[t := d[t][k := r]], Store.Put(c, t, k, r.fields))
  {
  }

  /** Dropping the same entry from both keeps them in step. */
  lemma MirrorsRemove(d: Data, c: Store.Tables<Value, Dict>, t: string, k: Value)
    requires Mirrors(d, c) && t in d && k in d[t]
    ensures Mirrors(d[t := d[t] - {k}], Store.Remove(c, t, k))
  {
  }

  /** When `c` has the tables and ids of `d` and agrees with the fields of every stored
      object but the one under `(t, k)`, recording that object's fields under its entry
      makes `c` a mirror of `d` again. */
  lemma MirrorsPatched(d: Data, c: Store.Tables<Value, Dict>, t: string, k: Value)
    requires c.Keys == d.Keys && forall t' :: t' in d ==> c[t'].Keys == d[t'].Keys
    requires t in d && k in d[t]
    requires forall t', k' :: t' in d && k' in d[t'] && (t' != t || k' != k) ==> d[t'][k'].fields == c[t'][k']
    ensures Mirrors(d, Store.Put(c, t, k, d[t][k].fields))
  {
    var c' := c[t := c[t][k := d[t][k].fields]];
    assert Store.Put(c, t, k, d[t][k].fields) == c';
    forall t', k' | t' in d && k' in d[t']
      ensures c'[t'][k'] == d[t'][k'].fields
    {
      if t' != t || k' != k {
        assert c'[t'][k'] == c[t'][k'];
      }
    }
  }
}
