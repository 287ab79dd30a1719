/**
 * The pieces both REST proxies share: HTTP status codes, and the RPC client
 * the proxy forwards documents with (a transport that may be closed, and a
 * `PredictorClient` whose `predict` goes over it).
 */
module Proxy {
  import opened StdMap

  datatype Code = Ok | BadRequest

  /** The client transport: whether it is open, and the documents written to it so far. */
  class Transport {
    var isOpen: bool
    var sent: seq<string>

    constructor (open: bool)
      ensures isOpen == open && sent == []
    {
      isOpen := open;
      sent := [];
    }

    method Open()
      modifies this
      ensures isOpen && sent == old(sent)
    {
      isOpen := true;
    }
  }

  /** `PredictorClient`: a `predict` call sends the document and returns the service's score map. */
  class PredictorClient {
    const transport: Transport
    /** The prediction service at the other end of the transport. */
    const service: string -> ScoreMap

    constructor (transport: Transport, service: string -> ScoreMap)
      ensures this.transport == transport && this.service == service
    {
      this.transport := transport;
      this.service := service;
    }

    method Predict(doc: string) returns (scores: ScoreMap)
      requires transport.isOpen
      modifies transport
      ensures transport.isOpen && transport.sent == old(transport.sent) + [doc]
      ensures scores == service(doc)
    {
      transport.sent := transport.sent + [doc];
      scores := service(doc);
    }
  }
}
