/** The remote query client the driver talks to, as an oracle: each request text (a query or a
    continuation token) has a fixed answer, and every request is recorded. */
module Simpleforce {
  import opened Wrappers
  import opened Types

  class Client {
    /** The remote service's answer to each request. */
    const respond: string -> Result<Batch, Error>
    /** Every request made so far, in order. */
    ghost var calls: seq<string>

    constructor (respond: string -> Result<Batch, Error>)
      ensures this.respond == respond && calls == []
    {
      this.respond := respond;
      calls := [];
    }

    /** One round trip to the remote service. */
    method Query(request: string) returns (r: Result<Batch, Error>)
      modifies this
      ensures r == respond(request)
      ensures calls == old(calls) + [request]
    {
      r := respond(request);
      calls := calls + [request];
    }
  }
}
