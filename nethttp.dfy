/** The values the client passes around, standing for Go's `net/http` types,
    and the transport it borrows. What a transport does on the network is not
    modelled: it is a fixed function from the request it receives to the
    reply it returns, and it keeps a log of every request it was handed. */
module NetHttp {

  datatype Option<+T> = None | Some(value: T)

  /** A Go `error` value. */
  datatype Error = Error(message: string)

  /** A value-or-error pair in which exactly one side is present, as for the
      middleware signature `func(*http.Request) (*http.Request, error)`. */
  datatype Result<+T> = Ok(value: T) | Err(error: Error)

  /** An outbound request (`*http.Request`), as a value. */
  datatype Request = Request(verb: string, url: string, header: seq<(string, string)>, body: seq<bv8>)

  /** A received response (`*http.Response`), as a value. */
  datatype Response = Response(statusCode: int, header: seq<(string, string)>, body: seq<bv8>)

  /** The `(*http.Response, error)` pair a dispatch returns; either side may be nil. */
  datatype Reply = Reply(response: Option<Response>, err: Option<Error>)

  /** The pair returned when dispatch is abandoned with `err`: a nil response and that error. */
  function Failed(err: Error): Reply {
    Reply(None, Some(err))
  }

  /** The shared `*http.Client` a Client sends through. */
  class Transport {
    const respond: Request -> Reply
    var sent: seq<Request>

    constructor (respond: Request -> Reply)
      ensures this.respond == respond && sent == []
    {
      this.respond := respond;
      sent := [];
    }

    /** http.Client.Do: send `req` and return whatever came back. */
    method Do(req: Request) returns (reply: Reply)
      modifies this
      ensures sent == old(sent) + [req]
      ensures reply == respond(req)
    {
      sent := sent + [req];
      reply := respond(req);
    }
  }
}
