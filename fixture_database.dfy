/** The database simulator of the fixtures tutorial: a dictionary of tables, each a
    dictionary from record id to record, updated in place. Ids are dictionary keys, so
    every id is stored and looked up by its `Key`: `True` finds the record stored under 1. */
module FixtureDatabase {
  import opened Wrappers
  import opened PyValues
  import opened Records
  import Store

  const MissingId := ValueError("Record must have an 'id' field")

  class Database {
    var data: Data

    /** The stored records as values: what every `get` would show. A caller that changes
        a record `get` handed out changes this view too. */
    ghost function Contents(): Store.Tables<Value, Dict>
      reads this, Objects(data)
    {
      Fields(data)
    }

    /** No record object sits under two entries, so changing one entry's object changes
        no other entry. */
    ghost predicate Valid()
      reads this
    {
      Distinct(data)
    }

    constructor ()
      ensures Valid() && Contents() == map[]
    {
      data := map[];
    }

    /** Creates the table if it is missing, then raises on a record without `"id"`;
        otherwise stores a fresh copy of the record under its id. */
    method Insert(table: string, record: Record) returns (outcome: Outcome)
      requires Valid()
      modifies this
      ensures Valid()
      ensures outcome == if "id" in record.fields then Done else Raised(MissingId)
      ensures "id" !in record.fields ==> Contents() == Store.WithTable(old(Contents()), table)
      ensures "id" in record.fields ==>
        Contents() == Store.Put(Store.WithTable(old(Contents()), table), table, Key(record.fields["id"]), record.fields)
      ensures "id" in record.fields ==>
        table in data && Key(record.fields["id"]) in data[table] && fresh(data[table][Key(record.fields["id"])])
      ensures "id" !in record.fields ==> Keeps(old(data), data)
      ensures "id" in record.fields ==> KeepsBut(old(data), data, table, Key(record.fields["id"]))
    {
      ghost var (d0, c) := (data, Contents());
      KeepsWithTable(data, table);
      if table !in data {
        DistinctWithTable(data, table);
        MirrorsWithTable(data, c, table);
        data := data[table := map[]];
        c := Store.WithTable(c, table);
      }
      if "id" !in record.fields {
        MirrorIsFields(data, c);
        return Raised(MissingId);
      }
      var id := Key(record.fields["id"]);
      var copy := new Record(record.fields);
      ghost var d := data;
      data := data[table := data[table][id := copy]];
      DistinctPut(d, table, id, copy);
      KeepsButPut(d0, d, table, id, copy);
      MirrorsPut(d, c, table, id, copy);
      MirrorIsFields(data, Store.Put(c, table, id, copy.fields));
      outcome := Done;
    }

    /** The stored record object itself (not a copy), or null when the table or id is absent. */
    method Get(table: string, id: Value) returns (r: Record?)
      ensures Store.Lookup(Contents(), table, Key(id)) == if r == null then None else Some(r.fields)
      ensures r != null ==> table in data && Key(id) in data[table] && r == data[table][Key(id)]
    {
      var key := Key(id);
      if table in data && key in data[table] {
        r := data[table][key];
      } else {
        r := null;
      }
    }

    /** Merges `newData` into the stored record in place; false when the table or id is absent. */
    method Update(table: string, id: Value, newData: Record) returns (ok: bool)
      requires Valid()
      modifies this, Objects(data)
      ensures Valid() && data == old(data)
      ensures ok == Store.Lookup(old(Contents()), table, Key(id)).Some?
      ensures Contents() == if ok then Store.Merge(old(Contents()), table, Key(id), old(newData.fields)) else old(Contents())
    {
      var key := Key(id);
      if table !in data || key !in data[table] {
        return false;
      }
      var rec := data[table][key];
      ghost var c := Contents();
      rec.fields := Store.Patched(rec.fields, newData.fields);
      forall t, k | t in data && k in data[t] && (t != table || k != key)
        ensures data[t][k].fields == c[t][k]
      {
        assert data[t][k] != rec;
      }
      MirrorsPatched(data, c, table, key);
      MirrorIsFields(data, Store.Merge(c, table, key, old(newData.fields)));
      ok := true;
    }

    /** Removes the record; false when the table or id is absent. */
    method Delete(table: string, id: Value) returns (ok: bool)
      requires Valid()
      modifies this
      ensures Valid()
      ensures ok == Store.Lookup(old(Contents()), table, Key(id)).Some?
      ensures Contents() == if ok then Store.Remove(old(Contents()), table, Key(id)) else old(Contents())
      ensures KeepsBut(old(data), data, table, Key(id))
    {
      var key := Key(id);
      if table !in data || key !in data[table] {
        return false;
      }
      ghost var c := Contents();
      DistinctRemove(data, table, key);
      KeepsButRemove(data, table, key);
      MirrorsRemove(data, c, table, key);
      data := data[table := data[table] - {key}];
      MirrorIsFields(data, Store.Remove(c, table, key));
      ok := true;
    }

    /** Drops every table. */
    method Clear()
      modifies this
      ensures Valid() && Contents() == map[]
    {
      data := map[];
    }
  }
}
