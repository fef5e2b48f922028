/** What one `Next` call does to the cursor's position, as a function of the held batch, the position
    and the remote client; and what a whole iteration over a paginated result yields. */
module Paging {
  import opened Wrappers
  import opened Types
  import opened Simpleforce
  import opened Columns

  /** The part of the cursor's state that pagination reads and writes: the held batch (None once
      closed) and the position in it. */
  datatype Cursor = Cursor(results: Option<Batch>, currentRow: nat)

  /** What a `Next` call comes to: a record to read, an error (end-of-data included), or a Go
      runtime panic (nil client, or an empty batch indexed at 0). */
  datatype Outcome = Row(record: Record) | Stop(err: Error) | Panic

  /** The continuation token `Next` follows once the held batch `b` is used up at `currentRow`,
      or None when it reports end-of-data instead. */
  function Continuation(b: Batch, currentRow: nat): Option<string>
  {
    if currentRow >= b.TotalSize then None
    else if b.NextRecordsURL == "" then None
    else Some(b.NextRecordsURL)
  }

  /** One `Next` call on cursor `c` whose connection holds `client`. */
  function Step(c: Cursor, client: Client?): (r: (Outcome, Cursor))
    ensures c.results.None? ==> r == (Stop(RowsClosed), c)
    ensures r.0.Stop? ==> r.1 == c
    ensures r.0.Row? ==>
      && r.1.results.Some?
      && 0 < r.1.currentRow <= |r.1.results.value.Records|
      && r.0.record == r.1.results.value.Records[r.1.currentRow - 1]
    ensures r.0.Row? && r.1.results != c.results ==>
      && c.results.Some?
      && Continuation(c.results.value, c.currentRow).Some?
      && client != null
      && client.respond(Continuation(c.results.value, c.currentRow).value) == Success(r.1.results.value)
      && r.1.currentRow == 1
  {
    match c.results
    case None => (Stop(RowsClosed), c)
    case Some(b) =>
      if c.currentRow < |b.Records| then
        (Row(b.Records[c.currentRow]), Cursor(c.results, c.currentRow + 1))
      else
        match Continuation(b, c.currentRow)
        case None => (Stop(EOF), c)
        case Some(token) =>
          if client == null then (Panic, c)
          else
            match client.respond(token)
            case Failure(e) => (Stop(e), c)
            case Success(next) =>
              if |next.Records| == 0 then (Panic, Cursor(Some(next), 0))
              else (Row(next.Records[0]), Cursor(Some(next), 1))
  }

  /** The requests `Step(c, client)` sends to the client: the continuation token, if it fetches. */
  function Fetches(c: Cursor): seq<string>
  {
    match c.results
    case None => []
    case Some(b) =>
      if c.currentRow < |b.Records| then []
      else match Continuation(b, c.currentRow)
        case None => []
        case Some(token) => [token]
  }

  /** The number of values `Next` writes: the memoised column count, or else the column count
      of the first record of the batch it reads from. */
  function Width(columns: Option<seq<string>>, b: Batch): nat
    requires columns.Some? || |b.Records| > 0
  {
    if columns.Some? then |columns.value| else |FilteredKeys(b.Records[0])|
  }

  /** Calling `Next` until it stops producing rows, at most `fuel` times: the records produced, and
      the outcome that ended the iteration (None when the fuel ran out first). */
  function Drain(c: Cursor, client: Client?, fuel: nat): (seq<Record>, Option<Outcome>)
    decreases fuel
  {
    if fuel == 0 then ([], None)
    else
      var (out, next) := Step(c, client);
      if out.Row? then
        var (rest, last) := Drain(next, client, fuel - 1);
        ([out.record] + rest, last)
      else ([], Some(out))
  }

  /** The number of records in `bs`. It is `|Flat(bs)|` (`FlatLength`), kept as a sum of page sizes
      so that the page-by-page arithmetic of the chain lemmas needs no reasoning about concatenation. */
  function Total(bs: seq<Batch>): nat
  {
    if bs == [] then 0 else |bs[0].Records| + Total(bs[1..])
  }

  /** The records of `bs`, batch after batch. */
  function Flat(bs: seq<Batch>): seq<Record>
  {
    if bs == [] then [] else bs[0].Records + Flat(bs[1..])
  }

  /** `bs` is the whole of one query's result as the remote service pages it: every page declares
      the same total size, the sum of the page sizes; each page but the last carries the token under
      which `client` answers with the next page; the last carries none; and only the first may be empty. */
  predicate Chain(bs: seq<Batch>, client: Client)
  {
    && |bs| > 0
    && (forall k :: 0 <= k < |bs| ==> bs[k].TotalSize == Total(bs))
    && (forall k :: 0 <= k < |bs| - 1 ==>
          bs[k].NextRecordsURL != "" && client.respond(bs[k].NextRecordsURL) == Success(bs[k + 1]))
    && bs[|bs| - 1].NextRecordsURL == ""
    && (forall k :: 0 < k < |bs| ==> |bs[k].Records| > 0)
  }

  lemma {:induction false} FlatLength(bs: seq<Batch>)
    ensures |Flat(bs)| == Total(bs)
  {
    if bs != [] {
      FlatLength(bs[1..]);
    }
  }

  lemma {:induction false} TotalSuffix(bs: seq<Batch>, b: nat)
    requires b <= |bs|
    ensures Total(bs[b..]) <= Total(bs)
  {
    if b > 0 {
      TotalSuffix(bs[1..], b - 1);
      assert bs[1..][b - 1..] == bs[b..];
    }
  }

  lemma UnfoldSuffix(bs: seq<Batch>, b: nat)
    requires b < |bs|
    ensures Total(bs[b..]) == |bs[b].Records| + Total(bs[b + 1..])
    ensures Flat(bs[b..]) == bs[b].Records + Flat(bs[b + 1..])
  {
  }

  /** A `Next` call that produces a row contributes that row to the drain, ahead of the rest. */
  lemma DrainRow(c: Cursor, client: Client?, fuel: nat)
    requires fuel > 0 && Step(c, client).0.Row?
    ensures Drain(c, client, fuel)
         == ([Step(c, client).0.record] + Drain(Step(c, client).1, client, fuel - 1).0,
             Drain(Step(c, client).1, client, fuel - 1).1)
  {
  }

  /** A page of a chain that is not the last is shorter than the declared total size. */
  lemma {:induction false} PageBelowTotal(bs: seq<Batch>, client: Client, b: nat)
    requires Chain(bs, client) && b < |bs| - 1
    ensures |bs[b].Records| < bs[b].TotalSize
  {
    UnfoldSuffix(bs, b);
    UnfoldSuffix(bs, b + 1);
    TotalSuffix(bs, b);
    assert |bs[b + 1].Records| > 0;
  }

  /** At the end of a page that is not the last, `Next` fetches the next page and reads its first record. */
  lemma StepAcrossPages(bs: seq<Batch>, client: Client, b: nat)
    requires Chain(bs, client) && b < |bs| - 1
    ensures Step(Cursor(Some(bs[b]), |bs[b].Records|), client)
         == (Row(bs[b + 1].Records[0]), Cursor(Some(bs[b + 1]), 1))
  {
    PageBelowTotal(bs, client, b);
    assert client.respond(bs[b].NextRecordsURL) == Success(bs[b + 1]);
    assert |bs[b + 1].Records| > 0;
  }

  /** What is left to read from position `i` of page `b`: the rest of that page and every later page. */
  function Remaining(bs: seq<Batch>, b: nat, i: nat): seq<Record>
    requires b < |bs| && i <= |bs[b].Records|
  {
    bs[b].Records[i..] + Flat(bs[b + 1..])
  }

  /** From any position in page `b` of a chain, draining the cursor yields the rest of that page and
      every later page, in order, and then end-of-data, on exactly the last of the allowed calls. */
  lemma {:induction false} DrainFrom(bs: seq<Batch>, client: Client, b: nat, i: nat)
    requires Chain(bs, client) && b < |bs| && i <= |bs[b].Records|
    ensures Drain(Cursor(Some(bs[b]), i), client, |Remaining(bs, b, i)| + 1)
         == (Remaining(bs, b, i), Some(Stop(EOF)))
    decreases |bs| - b, |bs[b].Records| - i
  {
    if i < |bs[b].Records| {
      DrainWithinPage(bs, client, b, i);
    } else if b < |bs| - 1 {
      DrainAcrossPages(bs, client, b);
    } else {
      var c := Cursor(Some(bs[b]), i);
      assert bs[b + 1..] == [];
      assert Remaining(bs, b, i) == [];
      assert Step(c, client) == (Stop(EOF), c);
    }
  }

  lemma {:induction false} DrainWithinPage(bs: seq<Batch>, client: Client, b: nat, i: nat)
    requires Chain(bs, client) && b < |bs| && i < |bs[b].Records|
    ensures Drain(Cursor(Some(bs[b]), i), client, |Remaining(bs, b, i)| + 1)
         == (Remaining(bs, b, i), Some(Stop(EOF)))
    decreases |bs| - b, |bs[b].Records| - i, 0
  {
    var page := bs[b].Records;
    var rest := Flat(bs[b + 1..]);
    assert page[i..] == [page[i]] + page[i + 1..];
    assert Remaining(bs, b, i) == [page[i]] + Remaining(bs, b, i + 1);
    DrainRow(Cursor(Some(bs[b]), i), client, |Remaining(bs, b, i)| + 1);
    DrainFrom(bs, client, b, i + 1);
  }

  lemma {:induction false} DrainAcrossPages(bs: seq<Batch>, client: Client, b: nat)
    requires Chain(bs, client) && b < |bs| - 1
    ensures Drain(Cursor(Some(bs[b]), |bs[b].Records|), client, |Remaining(bs, b, |bs[b].Records|)| + 1)
         == (Remaining(bs, b, |bs[b].Records|), Some(Stop(EOF)))
    decreases |bs| - b, 0, 0
  {
    var i := |bs[b].Records|;
    var nextPage := bs[b + 1].Records;
    StepAcrossPages(bs, client, b);
    UnfoldSuffix(bs, b + 1);
    assert bs[b].Records[i..] == [];
    assert nextPage == [nextPage[0]] + nextPage[1..];
    assert Remaining(bs, b, i) == [nextPage[0]] + Remaining(bs, b + 1, 1);
    DrainRow(Cursor(Some(bs[b]), i), client, |Remaining(bs, b, i)| + 1);
    DrainFrom(bs, client, b + 1, 1);
  }

  /** One `Next` call on a cursor that holds a page of a chain and is known to drain to `rest` and
      then end-of-data: it does not panic; it stops only with end-of-data once `rest` is empty;
      otherwise it produces the head of `rest`, leaves a page of the chain in the cursor, and the
      cursor drains to the tail of `rest`. */
  lemma StepInChain(bs: seq<Batch>, client: Client, c: Cursor, fuel: nat, rest: seq<Record>)
    requires Chain(bs, client) && c.results.Some? && c.results.value in bs
    requires fuel > 0 && Drain(c, client, fuel) == (rest, Some(Stop(EOF)))
    ensures !Step(c, client).0.Panic?
    ensures Step(c, client).0.Stop? ==> Step(c, client).0.err == EOF && rest == []
    ensures Step(c, client).0.Row? ==>
      && rest != [] && Step(c, client).0.record == rest[0]
      && Step(c, client).1.results.Some? && Step(c, client).1.results.value in bs
      && Drain(Step(c, client).1, client, fuel - 1) == (rest[1..], Some(Stop(EOF)))
  {
    var (out, next) := Step(c, client);
    if out.Row? {
      DrainRow(c, client, fuel);
      if next.results != c.results {
        var k :| 0 <= k < |bs| && bs[k] == c.results.value;
        assert k < |bs| - 1;
        assert client.respond(bs[k].NextRecordsURL) == Success(bs[k + 1]);
        assert next.results.value == bs[k + 1];
      }
    }
  }

  /** The first row a cursor opened on a chain produces lies on a page whose first record is the
      first record of the whole result: the page the columns are discovered from. */
  lemma FirstRowPage(bs: seq<Batch>, client: Client)
    requires Chain(bs, client)
    ensures Step(Cursor(Some(bs[0]), 0), client).0.Row? ==>
      && Flat(bs) != []
      && Step(Cursor(Some(bs[0]), 0), client).1.results.value.Records[0] == Flat(bs)[0]
  {
  }

  /** The paging promise: a cursor opened on the first page of a chain yields exactly `TotalSize`
      rows, all the records of all pages in the order the service returns them, and the next call
      after the last row reports end-of-data. */
  lemma DrainChain(bs: seq<Batch>, client: Client)
    requires Chain(bs, client)
    ensures |Flat(bs)| == bs[0].TotalSize
    ensures Drain(Cursor(Some(bs[0]), 0), client, bs[0].TotalSize + 1) == (Flat(bs), Some(Stop(EOF)))
  {
    FlatLength(bs);
    UnfoldSuffix(bs, 0);
    assert bs[0..] == bs;
    assert bs[0].Records[0..] == bs[0].Records;
    assert Remaining(bs, 0, 0) == Flat(bs);
    DrainFrom(bs, client, 0, 0);
  }
}
