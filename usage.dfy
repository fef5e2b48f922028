/** What a caller of the driver can rely on, derived from the contracts of `Conn` and `Rows` alone. */
module Usage {
  import opened Wrappers
  import opened Types
  import opened Simpleforce
  import opened Columns
  import opened Paging
  import opened SalesforceDb

  /** Closing a cursor twice: the first close succeeds, the second reports `errClosed`, and the
      cursor stays closed, so a later `Next` reports `errClosed` too. */
  method CloseRowsTwice(rows: Rows) returns (first: Option<Error>, second: Option<Error>)
    requires rows.Valid() && rows.results.Some?
    modifies rows
    ensures first == None && second == Some(RowsClosed)
    ensures rows.Valid() && rows.results == None
  {
    first := rows.Close();
    second := rows.Close();
  }

  /** Closing a connection twice: both closes succeed. */
  method CloseConnTwice(conn: Conn) returns (first: Option<Error>, second: Option<Error>)
    modifies conn
    ensures first == None && second == None && conn.client == null
  {
    first := conn.Close();
    second := conn.Close();
  }

  /** Counts the rows of a cursor at the start of its first page, whose columns may already be
      memoised, by calling `Next` until it stops. Over a well-formed chain of pages the count is the
      declared total size, the call that stops reports end-of-data, and the cursor is left open on a
      page of the chain, ready to be closed. */
  method CountRows(rows: Rows, dest: array<Value>, ghost bs: seq<Batch>, ghost client: Client)
    returns (count: nat, err: Option<Error>)
    requires Chain(bs, client)
    requires rows.Valid() && rows.Remote() == client
    requires rows.results == Some(bs[0]) && rows.currentRow == 0
    requires rows.columns.Some? ==> |rows.columns.value| <= dest.Length
    requires Flat(bs) != [] ==> |FilteredKeys(Flat(bs)[0])| <= dest.Length
    modifies rows, dest, client
    ensures count == bs[0].TotalSize && err == Some(EOF)
    ensures rows.Valid() && rows.results.Some? && rows.results.value in bs && rows.Remote() == client
  {
    ghost var total := bs[0].TotalSize;
    ghost var all := Flat(bs);
    DrainChain(bs, client);
    FirstRowPage(bs, client);
    count := 0;
    while true
      invariant rows.Valid() && rows.Remote() == client
      invariant count <= total
      invariant rows.results.Some? && rows.results.value in bs
      invariant rows.columns.Some? ==> |rows.columns.value| <= dest.Length
      invariant rows.columns.None? ==> count == 0 && rows.Position() == Cursor(Some(bs[0]), 0)
      invariant Drain(rows.Position(), client, total + 1 - count) == (all[count..], Some(Stop(EOF)))
      decreases total + 1 - count
    {
      ghost var before := rows.Position();
      StepInChain(bs, client, before, total + 1 - count, all[count..]);
      err := rows.Next(dest);
      if err != None {
        return;
      }
      assert all[count..][1..] == all[count + 1..];
      count := count + 1;
    }
  }

  /** The test's reading of a whole result: count the rows until `Next` stops, then close the
      cursor, which succeeds and leaves it closed. */
  method CountThenClose(rows: Rows, dest: array<Value>, ghost bs: seq<Batch>, ghost client: Client)
    returns (count: nat, err: Option<Error>, closeErr: Option<Error>)
    requires Chain(bs, client)
    requires rows.Valid() && rows.Remote() == client
    requires rows.results == Some(bs[0]) && rows.currentRow == 0
    requires rows.columns.Some? ==> |rows.columns.value| <= dest.Length
    requires Flat(bs) != [] ==> |FilteredKeys(Flat(bs)[0])| <= dest.Length
    modifies rows, dest, client
    ensures count == bs[0].TotalSize && err == Some(EOF)
    ensures closeErr == None && rows.Valid() && rows.results == None
  {
    count, err := CountRows(rows, dest, bs, client);
    closeErr := rows.Close();
  }
}
