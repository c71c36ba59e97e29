/** The database of the mocking tutorial: the same table store, gated on a connection
    object whose `connected` flag the database only reads. Writes stamp the record
    with the time the caller supplies (the source reads the clock). Every failure is
    reported as `false` or null rather than raised. Ids are stored and looked up by their
    `Key`, as dictionary keys are. */
module MockingDatabase {
  import opened Wrappers
  import opened PyValues
  import opened Records
  import Store

  class Connection {
    var host: string
    var port: int
    var connected: bool

    constructor (host: string, port: int)
      ensures this.host == host && this.port == port && !connected
    {
      this.host := host;
      this.port := port;
      connected := false;
    }

    /** Always succeeds and reports the new state. */
    method Connect() returns (r: bool)
      modifies this
      ensures connected && r
      ensures host == old(host) && port == old(port)
    {
      connected := true;
      r := connected;
    }

    /** Closes an open connection; does nothing to a closed one. */
    method Disconnect()
      modifies this
      ensures !connected
      ensures host == old(host) && port == old(port)
    {
      if connected {
        connected := false;
      }
    }
  }

  class Database {
    const connection: Connection
    var data: Data

    /** The stored records as values: what every `get` would show while connected. A caller
        that changes a record `get` handed out changes this view too. */
    ghost function Contents(): Store.Tables<Value, Dict>
      reads this, Objects(data)
    {
      Fields(data)
    }

    /** No record object sits under two entries, so changing one entry's object changes
        no other entry. */
    ghost predicate Valid()
      reads this
    {
      Distinct(data)
    }

    constructor (connection: Connection)
      ensures this.connection == connection
      ensures Valid() && Contents() == map[]
    {
      this.connection := connection;
      data := map[];
    }

    /** When connected: creates the table if missing, then stores a new record made of the
        record's fields plus `created_at`, or returns false when the record has no `"id"`. */
    method Insert(table: string, record: Record, now: int) returns (ok: bool)
      requires Valid()
      modifies this
      ensures Valid()
      ensures ok == (connection.connected && "id" in record.fields)
      ensures !connection.connected ==> data == old(data) && Contents() == old(Contents())
      ensures connection.connected && "id" !in record.fields ==>
        Contents() == Store.WithTable(old(Contents()), table)
      ensures ok ==>
        Contents() == Store.Put(Store.WithTable(old(Contents()), table), table, Key(record.fields["id"]),
                                record.fields["created_at" := Stamp(now)])
      ensures ok ==> table in data && Key(record.fields["id"]) in data[table] && fresh(data[table][Key(record.fields["id"])])
      ensures !ok ==> Keeps(old(data), data)
      ensures ok ==> KeepsBut(old(data), data, table, Key(record.fields["id"]))
    {
      if !connection.connected {
        return false;
      }
      ghost var (d0, c) := (data, Contents());
      KeepsWithTable(data, table);
      if table !in data {
        DistinctWithTable(data, table);
        MirrorsWithTable(data, c, table);
        data := data[table := map[]];
        c := Store.WithTable(c, table);
      }
      if "id" !in record.fields {
        MirrorIsFields(data, c);
        return false;
      }
      var id := Key(record.fields["id"]);
      var stamped := new Record(record.fields["created_at" := Stamp(now)]);
      ghost var d := data;
      data := data[table := data[table][id := stamped]];
      DistinctPut(d, table, id, stamped);
      KeepsButPut(d0, d, table, id, stamped);
      MirrorsPut(d, c, table, id, stamped);
      MirrorIsFields(data, Store.Put(c, table, id, stamped.fields));
      ok := true;
    }

    /** When connected, the stored record object itself, or null when the table or id is
        absent; always null when disconnected. */
    method Get(table: string, id: Value) returns (r: Record?)
      ensures !connection.connected ==> r == null
      ensures connection.connected ==>
        Store.Lookup(Contents(), table, Key(id)) == if r == null then None else Some(r.fields)
      ensures r != null ==> table in data && Key(id) in data[table] && r == data[table][Key(id)]
    {
      var key := Key(id);
      if !connection.connected {
        return null;
      }
      if table in data && key in data[table] {
        r := data[table][key];
      } else {
        r := null;
      }
    }

    /** When connected and the record exists: merges `newData` into it in place and stamps
        `updated_at`. False, with nothing changed, otherwise. */
    method Update(table: string, id: Value, newData: Record, now: int) returns (ok: bool)
      requires Valid()
      modifies this, Objects(data)
      ensures Valid() && data == old(data)
      ensures ok == (connection.connected && Store.Lookup(old(Contents()), table, Key(id)).Some?)
      ensures Contents() ==
        if ok then Store.Merge(old(Contents()), table, Key(id), old(newData.fields)["updated_at" := Stamp(now)])
        else old(Contents())
    {
      var key := Key(id);
      if !connection.connected {
        return false;
      }
      if table !in data || key !in data[table] {
        return false;
      }
      var rec := data[table][key];
      ghost var c := Contents();
      ghost var patch := newData.fields["updated_at" := Stamp(now)];
      Store.PatchedThenSet(rec.fields, newData.fields, "updated_at", Stamp(now));
      rec.fields := Store.Patched(rec.fields, newData.fields);
      rec.fields := rec.fields["updated_at" := Stamp(now)];
      forall t, k | t in data && k in data[t] && (t != table || k != key)
        ensures data[t][k].fields == c[t][k]
      {
        assert data[t][k] != rec;
      }
      MirrorsPatched(data, c, table, key);
      MirrorIsFields(data, Store.Merge(c, table, key, patch));
      ok := true;
    }

    /** When connected, removes an existing record. False, with nothing changed, otherwise. */
    method Delete(table: string, id: Value) returns (ok: bool)
      requires Valid()
      modifies this
      ensures Valid()
      ensures ok == (connection.connected && Store.Lookup(old(Contents()), table, Key(id)).Some?)
      ensures Contents() == if ok then Store.Remove(old(Contents()), table, Key(id)) else old(Contents())
      ensures KeepsBut(old(data), data, table, Key(id))
    {
      var key := Key(id);
      if !connection.connected {
        return false;
      }
      if table !in data || key !in data[table] {
        return false;
      }
      ghost var c := Contents();
      DistinctRemove(data, table, key);
      KeepsButRemove(data, table, key);
      MirrorsRemove(data, c, table, key);
      data := data[table := data[table] - {key}];
      MirrorIsFields(data, Store.Remove(c, table, key));
      ok := true;
    }
  }
}
