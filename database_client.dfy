/** The query client of the mocking tutorial: a connection flag and an in-memory store
    of string records, driven by a two-statement query language
    (`SELECT ... FROM t` and `INSERT INTO t VALUES k=v,k=v`). */
module DatabaseClient {
  import opened Wrappers
  import opened TextSplit
  import Store

  /** A record built from `k=v` pairs: every key and value is a string. */
  type Row = map<string, string>

  /** What `execute_query` returns: a whole table for a SELECT, the new record for an INSERT. */
  datatype QueryResult = Rows(rows: map<string, Row>) | Inserted(row: Row)

  /** `get_config`: the fixed configuration the client reports. */
  function Config(): (c: map<string, string>)
    ensures c.Keys == {"max_connections", "timeout", "retry_attempts"}
    ensures c["max_connections"] == "100" && c["timeout"] == "30" && c["retry_attempts"] == "3"
  {
    map["max_connections" := "100", "timeout" := "30", "retry_attempts" := "3"]
  }

  /** `dict(item.split("=") for item in items)` added to `acc`: fails unless every item
      splits into exactly two pieces; a later key overrides an earlier one. */
  function AddPairs(acc: Row, items: seq<string>): Option<Row>
    decreases |items|
  {
    if items == [] then Some(acc)
    else
      var kv := SplitOn(items[0], "=");
      if |kv| != 2 then None else AddPairs(acc[kv[0] := kv[1]], items[1..])
  }

  /** The table named by a SELECT: the text between the first and the second "FROM",
      stripped; `None` (an IndexError) when there is no "FROM". */
  function SelectTable(query: string): Option<string>
  {
    var parts := SplitOn(query, "FROM");
    if |parts| < 2 then None else Some(Strip(parts[1]))
  }

  /** The body of `execute_query` on a connected client: the result and the new store. */
  function Execute(data: Store.Tables<string, Row>, query: string): (Option<QueryResult>, Store.Tables<string, Row>)
  {
    if "SELECT" <= query then
      match SelectTable(query)
      case None => (None, data)
      case Some(table) => (Some(Rows(if table in data then data[table] else map[])), data)
    else if "INSERT" <= query then
      var parts := Words(query);
      if |parts| < 5 then (None, data)
      else
        var table := parts[2];
        match AddPairs(map[], SplitOn(parts[4], ","))
        case None => (None, data)
        case Some(row) =>
          var withTable := Store.WithTable(data, table);
          if "id" !in row then (None, withTable)
          else (Some(Inserted(row)), Store.Put(withTable, table, row["id"], row))
    else (None, data)
  }

  class Client {
    var host: string
    var port: int
    var connected: bool
    var data: Store.Tables<string, Row>

    constructor (host: string, port: int)
      ensures this.host == host && this.port == port
      ensures !connected && data == map[]
    {
      this.host := host;
      this.port := port;
      connected := false;
      data := map[];
    }

    method Connect() returns (r: bool)
      modifies this
      ensures connected && r
      ensures host == old(host) && port == old(port) && data == old(data)
    {
      connected := true;
      r := true;
    }

    /** Closes an open connection; does nothing to a closed one. */
    method Disconnect()
      modifies this
      ensures !connected
      ensures host == old(host) && port == old(port) && data == old(data)
    {
      if connected {
        connected := false;
      }
    }

    /** `None` and no change when disconnected; otherwise the parsed query is run on the store. */
    method ExecuteQuery(query: string) returns (r: Option<QueryResult>)
      modifies this
      ensures host == old(host) && port == old(port) && connected == old(connected)
      ensures !connected ==> r == None && data == old(data)
      ensures connected ==> (r, data) == Execute(old(data), query)
    {
      if !connected {
        return None;
      }
      if "SELECT" <= query {
        var parts := SplitOn(query, "FROM");
        if |parts| < 2 {
          return None;
        }
        var table := Strip(parts[1]);
        r := Some(Rows(if table in data then data[table] else map[]));
      } else if "INSERT" <= query {
        var parts := Words(query);
        if |parts| < 5 {
          return None;
        }
        var table := parts[2];
        var row := AddPairs(map[], SplitOn(parts[4], ","));
        if row.None? {
          return None;
        }
        if table !in data {
          data := data[table := map[]];
        }
        if "id" !in row.value {
          return None;
        }
        data := data[table := data[table][row.value["id"] := row.value]];
        r := Some(Inserted(row.value));
      } else {
        r := None;
      }
    }

    /** Succeeds exactly when connected; the file is not written in this model. */
    method BackupData(filename: string) returns (ok: bool)
      ensures ok == connected
    {
      if !connected {
        return false;
      }
      ok := true;
    }

    /** Runs the query up to `maxRetries` times and returns the first result that is not `None`. */
    method QueryWithRetry(query: string, maxRetries: int) returns (r: Option<QueryResult>, ghost calls: nat)
      modifies this
      ensures host == old(host) && port == old(port) && connected == old(connected)
      ensures maxRetries <= 0 ==> calls == 0 && r == None && data == old(data)
      ensures maxRetries > 0 ==> 1 <= calls <= maxRetries
      ensures r == None && maxRetries > 0 ==> calls == maxRetries
      ensures maxRetries > 0 && !connected ==> r == None && data == old(data)
      ensures maxRetries > 0 && connected ==> (r, data) == Execute(old(data), query)
    {
      var attempts := 0;
      calls := 0;
      while attempts < maxRetries
        invariant 0 <= attempts == calls
        invariant attempts <= if maxRetries > 0 then maxRetries else 0
        invariant host == old(host) && port == old(port) && connected == old(connected)
        invariant attempts == 0 || !connected ==> data == old(data)
        invariant attempts > 0 && connected ==> Execute(old(data), query) == (None, data)
      {
        var result := ExecuteQuery(query);
        calls := calls + 1;
        if result.Some? {
          return result, calls;
        }
        attempts := attempts + 1;
      }
      r := None;
    }
  }

  /** A failed query leaves a store on which the same query fails again without further
      change: a failed INSERT at most created its table, and creating it again does nothing. */
  lemma FailureIsStable(data: Store.Tables<string, Row>, query: string)
    requires Execute(data, query).0 == None
    ensures Execute(Execute(data, query).1, query) == (None, Execute(data, query).1)
  {
  }

  /** `dict(...)` succeeds exactly when every item splits on "=" into two pieces. */
  lemma {:induction false} AddPairsDefined(acc: Row, items: seq<string>)
    ensures AddPairs(acc, items).Some? <==>
      forall i :: 0 <= i < |items| ==> |SplitOn(items[i], "=")| == 2
    decreases |items|
  {
    if items != [] {
      var kv := SplitOn(items[0], "=");
      if |kv| == 2 {
        AddPairsDefined(acc[kv[0] := kv[1]], items[1..]);
        assert forall i :: 1 <= i < |items| ==> items[i] == items[1..][i - 1];
      }
    }
  }

  /** The keys of the built record are the earlier keys plus the text before "=" in each item. */
  lemma {:induction false} AddPairsKeys(acc: Row, items: seq<string>)
    requires AddPairs(acc, items).Some?
    ensures AddPairs(acc, items).value.Keys ==
      acc.Keys + set i | 0 <= i < |items| :: SplitOn(items[i], "=")[0]
    decreases |items|
  {
    if items != [] {
      var kv := SplitOn(items[0], "=");
      AddPairsKeys(acc[kv[0] := kv[1]], items[1..]);
      var rest := set i | 0 <= i < |items[1..]| :: SplitOn(items[1..][i], "=")[0];
      var all := set i | 0 <= i < |items| :: SplitOn(items[i], "=")[0];
      assert all == {kv[0]} + rest by {
        forall x | x in all ensures x in {kv[0]} + rest {
          var i :| 0 <= i < |items| && x == SplitOn(items[i], "=")[0];
          if i > 0 {
            assert items[i] == items[1..][i - 1];
          }
        }
        forall x | x in rest ensures x in all {
          var i :| 0 <= i < |items[1..]| && x == SplitOn(items[1..][i], "=")[0];
          assert items[1..][i] == items[i + 1];
        }
      }
    }
  }

  /** When a key is repeated, the last item naming it decides its value. */
  lemma {:induction false} AddPairsLastWins(acc: Row, items: seq<string>)
    requires AddPairs(acc, items).Some? && items != []
    ensures |SplitOn(items[|items| - 1], "=")| == 2
    ensures var kv := SplitOn(items[|items| - 1], "=");
      kv[0] in AddPairs(acc, items).value && AddPairs(acc, items).value[kv[0]] == kv[1]
    decreases |items|
  {
    var kv := SplitOn(items[0], "=");
    if |items| > 1 {
      AddPairsLastWins(acc[kv[0] := kv[1]], items[1..]);
      assert items[1..][|items[1..]| - 1] == items[|items| - 1];
    }
  }

  /** The documented INSERT form is seen as an INSERT and splits into its five words. */
  lemma InsertShape(table: string, pairs: string)
    requires IsWord(table) && IsWord(pairs)
    ensures var query := Join(["INSERT", "INTO", table, "VALUES", pairs], " ");
      "INSERT" <= query && !("SELECT" <= query) &&
      Words(query) == ["INSERT", "INTO", table, "VALUES", pairs]
  {
    var words := ["INSERT", "INTO", table, "VALUES", pairs];
    assert IsWord("INSERT") && IsWord("INTO") && IsWord("VALUES");
    WordsJoin(words);
    var query := Join(words, " ");
    assert query == "INSERT" + " " + Join(words[1..], " ");
    assert query[0] == 'I';
  }

  /** An INSERT in the documented form (`INSERT INTO t VALUES k=v,...`, single blanks) stores the record built from its pairs under its
      `"id"` and returns it, creating the table first when it is missing. */
  lemma InsertStores(data: Store.Tables<string, Row>, table: string, pairs: string)
    requires IsWord(table) && IsWord(pairs)
    requires AddPairs(map[], SplitOn(pairs, ",")).Some?
    ensures var query := Join(["INSERT", "INTO", table, "VALUES", pairs], " ");
      var row := AddPairs(map[], SplitOn(pairs, ",")).value;
      Execute(data, query) ==
        if "id" in row then (Some(Inserted(row)), Store.Put(Store.WithTable(data, table), table, row["id"], row))
        else (None, Store.WithTable(data, table))
  {
    InsertShape(table, pairs);
  }

  /** A SELECT reads the table named between its first "FROM" and the next one (or the end
      of the query), stripped of blanks; the store is unchanged. */
  lemma SelectReads(data: Store.Tables<string, Row>, query: string, i: nat)
    requires "SELECT" <= query
    requires OccursAt(query, "FROM", i) && forall j :: 0 <= j < i ==> !OccursAt(query, "FROM", j)
    ensures var table := Strip(SplitOn(query[i + 4..], "FROM")[0]);
      Execute(data, query) == (Some(Rows(if table in data then data[table] else map[])), data)
  {
    SplitFirst(query, "FROM", i);
    assert SplitOn(query, "FROM")[1] == SplitOn(query[i + 4..], "FROM")[0];
  }

  /** A SELECT without "FROM" fails and changes nothing. */
  lemma SelectWithoutFrom(data: Store.Tables<string, Row>, query: string)
    requires "SELECT" <= query && !Occurs(query, "FROM")
    ensures Execute(data, query) == (None, data)
  {
    SplitCount(query, "FROM");
  }

  /** `SELECT * FROM users` reads the `users` table, or an empty one when it is missing. */
  lemma SelectExample(data: Store.Tables<string, Row>)
    ensures Execute(data, "SELECT * FROM users") ==
      (Some(Rows(if "users" in data then data["users"] else map[])), data)
  {
    SelectUsers(data, "SELECT * FROM users");
  }

  /** The example query, as a parameter so that its text is not unfolded. */
  lemma SelectUsers(data: Store.Tables<string, Row>, query: string)
    requires query == "SELECT * FROM users"
    ensures Execute(data, query) == (Some(Rows(if "users" in data then data["users"] else map[])), data)
  {
    assert OccursAt(query, "FROM", 9);
    forall j | 0 <= j < 9 ensures !OccursAt(query, "FROM", j) {
      assert query[j] != 'F' && query[j..j + 4][0] == query[j];
    }
    SelectReads(data, query, 9);
    var rest := query[9 + 4..];
    assert rest == " users";
    UsersTail(rest);
    var table := Strip(SplitOn(rest, "FROM")[0]);
    assert table == "users";
    assert Execute(data, query) == (Some(Rows(if table in data then data[table] else map[])), data);
  }

  /** The text after the "FROM" of the example names the `users` table. */
  lemma UsersTail(rest: string)
    requires rest == " users"
    ensures Strip(SplitOn(rest, "FROM")[0]) == "users"
  {
    forall j | 0 <= j <= |rest| - 4 ensures !OccursAt(rest, "FROM", j) {
      assert rest[j] != 'F' && rest[j..j + 4][0] == rest[j];
    }
    SplitAbsent(rest, "FROM");
    StripPadded("users");
  }
}
