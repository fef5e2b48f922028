/** The values the driver passes around: record fields, batches of records and errors. */
module Types {

  /** The contents of a field, opaque to the driver (a `driver.Value`). */
  type Payload(==)

  /** A field as the driver sees it: `Nil` is Go's nil, which a record lookup also yields for an absent key. */
  datatype Value = Nil | Scalar(payload: Payload)

  /** One record of a query result: field name to value, with no key order. */
  type Record = map<string, Value>

  /** One page of a query result (a `simpleforce.QueryResult`). `NextRecordsURL` is the continuation
      token, empty on the last page; `TotalSize` is the size of the whole result set. */
  datatype Batch = Batch(Records: seq<Record>, TotalSize: int, NextRecordsURL: string)

  /** The errors the core returns. `RowsClosed` is `errClosed`, `EOF` is `io.EOF`, `NoPrepared` and
      `NoTransactions` are the connection's "unsupported" errors, `Remote` is whatever the client reports. */
  datatype Error = RowsClosed | EOF | NoPrepared | NoTransactions | Remote(message: string)

  /** Go's `math.MaxInt` on a 64-bit platform: the sentinel a closed cursor leaves in its position. */
  const MaxInt: nat := 0x7FFF_FFFF_FFFF_FFFF
}
