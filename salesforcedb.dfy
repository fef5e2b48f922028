/** The driver's connection and its result cursor. */
module SalesforceDb {
  import opened Wrappers
  import opened Types
  import opened Simpleforce
  import opened Columns
  import opened Paging

  /** A connection: a handle on the remote client, cleared by `Close`. */
  class Conn {
    var client: Client?

    /** Made by the driver once the client has logged in. */
    constructor (client: Client)
      ensures this.client == client
    {
      this.client := client;
    }

    /** Transactions are not supported: always `errNoTransactions`, and nothing changes. */
    method Begin() returns (err: Option<Error>)
      ensures err == Some(NoTransactions)
    {
      err := Some(NoTransactions);
    }

    /** Prepared statements are not supported: always `errNoPrepared`, and nothing changes. */
    method Prepare(query: string) returns (err: Option<Error>)
      ensures err == Some(NoPrepared)
    {
      err := Some(NoPrepared);
    }

    /** Drops the client handle; closing again is harmless. */
    method Close() returns (err: Option<Error>)
      modifies this
      ensures client == null && err == None
    {
      client := null;
      err := None;
    }

    /** Always succeeds, without a round trip to the remote service. */
    method Ping() returns (err: Option<Error>)
      ensures err == None
    {
      err := None;
    }

    /** Runs `query` on the remote service and opens a cursor on the first page of its result.
        Arguments are refused before the client is called; the client's error is passed through. */
    method Query(query: string, args: seq<Value>) returns (rows: Rows?, err: Option<Error>)
      requires |args| == 0 ==> client != null
      modifies client
      ensures |args| > 0 ==> rows == null && err == Some(NoPrepared)
      ensures |args| > 0 && client != null ==> client.calls == old(client.calls)
      ensures |args| == 0 ==> client.calls == old(client.calls) + [query]
      ensures |args| == 0 ==>
        match client.respond(query)
        case Failure(e) => rows == null && err == Some(e)
        case Success(first) =>
          && err == None
          && rows != null && fresh(rows) && rows.Valid()
          && rows.connection == this && rows.results == Some(first)
          && rows.currentRow == 0 && rows.columns == None
    {
      if |args| > 0 {
        return null, Some(NoPrepared);
      }
      var rs := client.Query(query);
      if rs.Failure? {
        return null, Some(rs.error);
      }
      rows := new Rows(this, rs.value);
      err := None;
    }
  }

  /** A result cursor over one query's paginated result. It is open while it holds a page
      (`results != None`) and closed afterwards. */
  class Rows {
    var connection: Conn?
    var columns: Option<seq<string>>
    var results: Option<Batch>
    var currentRow: nat

    /** An open cursor has a connection and a position within (or just past) its page; a closed
        one has released everything and parked its position at `MaxInt`. */
    ghost predicate Valid()
      reads this
    {
      && (results.Some? ==> connection != null && currentRow <= |results.value.Records|)
      && (results.None? ==> connection == null && columns == None && currentRow == MaxInt)
    }

    /** The client a page fetch goes to. */
    ghost function Remote(): Client?
      reads this, connection
    {
      if connection == null then null else connection.client
    }

    ghost function Position(): Cursor
      reads this
    {
      Cursor(results, currentRow)
    }

    constructor (connection: Conn, first: Batch)
      ensures Valid()
      ensures this.connection == connection && results == Some(first)
      ensures currentRow == 0 && columns == None
    {
      this.connection := connection;
      results := Some(first);
      currentRow := 0;
      columns := None;
    }

    /** The column names, discovered once from the first record of the held page and memoised.
        A closed cursor has none. */
    method Columns() returns (cols: Option<seq<string>>)
      requires Valid()
      requires results.Some? && columns == None ==> |results.value.Records| > 0
      modifies this`columns
      ensures Valid()
      ensures old(results) == None ==> cols == None && columns == old(columns)
      ensures old(results).Some? && old(columns).Some? ==> cols == old(columns) && columns == old(columns)
      ensures old(results).Some? && old(columns) == None ==>
        cols == columns && cols.Some? && IsColumnOrder(cols.value, results.value.Records[0])
    {
      if results == None {
        return None;
      }
      if columns == None {
        var r := results.value.Records[0];
        var keys := r.Keys;
        var discovered: seq<string> := [];
        while keys != {}
          invariant keys <= r.Keys
          invariant NoDuplicates(discovered)
          invariant forall k :: k in discovered ==> k in FilteredKeys(r) && k !in keys
          invariant forall k :: k in FilteredKeys(r) && k !in keys ==> k in discovered
          decreases keys
        {
          var k :| k in keys;
          if !StringInSlice(k, Metadata) {
            discovered := discovered + [k];
          }
          keys := keys - {k};
        }
        columns := Some(discovered);
      }
      return columns;
    }

    /** Moves to the next row and copies its values, in column order, into `dest`; at the end of the
        held page, first fetches the next page through the page's continuation token. */
    method Next(dest: array<Value>) returns (err: Option<Error>)
      requires Valid()
      requires !Step(Position(), Remote()).0.Panic?
      requires Step(Position(), Remote()).0.Row? ==>
        dest.Length >= Width(columns, Step(Position(), Remote()).1.results.value)
      modifies this, dest, Remote()
      ensures Valid()
      ensures connection == old(connection)
      ensures Position() == Step(old(Position()), old(Remote())).1
      ensures old(Remote()) != null ==> old(Remote()).calls == old(Remote().calls) + Fetches(old(Position()))
      ensures Step(old(Position()), old(Remote())).0.Stop? ==>
        && err == Some(Step(old(Position()), old(Remote())).0.err)
        && columns == old(columns)
        && dest[..] == old(dest[..])
      ensures Step(old(Position()), old(Remote())).0.Row? ==>
        var record := Step(old(Position()), old(Remote())).0.record;
        && err == None
        && columns.Some?
        && (old(columns).Some? ==> columns == old(columns))
        && (old(columns) == None ==> IsColumnOrder(columns.value, results.value.Records[0]))
        && |columns.value| <= dest.Length
        && (forall i :: 0 <= i < |columns.value| ==> dest[i] == Lookup(record, columns.value[i]))
        && (forall i :: |columns.value| <= i < dest.Length ==> dest[i] == old(dest[i]))
    {
      if results == None {
        return Some(RowsClosed);
      }
      if currentRow >= |results.value.Records| {
        if currentRow >= results.value.TotalSize {
          return Some(EOF);
        }
        if results.value.NextRecordsURL == "" {
          return Some(EOF);
        }
        var rs := connection.client.Query(results.value.NextRecordsURL);
        if rs.Failure? {
          return Some(rs.error);
        }
        results := Some(rs.value);
        currentRow := 0;
      }

      if columns == None {
        var cols := Columns();
        ColumnOrderWidth(cols.value, results.value.Records[0]);
      }

      var values := results.value.Records[currentRow];
      var names := columns.value;
      for i := 0 to |names|
        modifies dest
        invariant forall j :: 0 <= j < i ==> dest[j] == Lookup(values, names[j])
        invariant forall j :: i <= j < dest.Length ==> dest[j] == old(dest[j])
      {
        dest[i] := Lookup(values, names[i]);
      }
      currentRow := currentRow + 1;
      return None;
    }

    /** Closes the cursor, releasing its page, its columns and its connection; closing a closed
        cursor is an error. */
    method Close() returns (err: Option<Error>)
      requires Valid()
      modifies this
      ensures Valid()
      ensures old(results) == None ==> err == Some(RowsClosed) && unchanged(this)
      ensures old(results).Some? ==>
        && err == None
        && results == None && columns == None && connection == null && currentRow == MaxInt
    {
      if results == None {
        return Some(RowsClosed);
      }
      connection := null;
      columns := None;
      results := None;
      currentRow := MaxInt;
      return None;
    }
  }
}
