/**
  The HTTP exchange as the client sees it, with the network, the clock and
  cancellation abstracted into a World of oracles.
 */
module Http {

  import opened Results
  import opened Json

  datatype Verb = Get | Post | Delete

  /** The JSON bodies the client sends. */
  datatype Payload =
    | EnrollmentBatch(enrollments: seq<map<string, string>>)   // {"enrollments": [...]}
    | SiteIds(sites: seq<string>)                              // {"sites": [...]}

  /**
    A prepared request: verb, address, optional JSON body and the value of the
    X-Cisco-Meraki-API-Key header (Content-Type and Accept are always
    application/json).
   */
  datatype Request = Request(verb: Verb, url: string, payload: Option<Payload>, apiKey: string)

  /**
    What reading a response body yields: one JSON document, other non-empty
    bytes, no bytes at all, or a read error. An empty body (http.NoBody, sent
    for Content-Length 0) reads as empty even after it has been closed.
   */
  datatype Body = Document(value: Json) | NotJson | Empty | Unreadable

  /**
    A response: status code, body and the value of resp.Header.Get("Link"):
    the first Link header line only when there are several, "" when absent.
   */
  datatype Response = Response(status: int, body: Body, link: string)

  /** The outcome of one call of the transport. */
  datatype Outcome = Failed(cause: string) | Replied(resp: Response)

  /**
    The outside world, indexed by the request and the attempt number:
    send gives what the transport returns, clock gives time.Now().UnixNano()
    when the backoff jitter is drawn, and cancelled says whether the caller's
    context is done before the backoff timer fires.
   */
  datatype World = World(
    send: (Request, nat) -> Outcome,
    clock: (Request, nat) -> int,
    cancelled: (Request, nat) -> bool)

  /** The errors the client returns (Go error values). */
  datatype ClientError =
    | TransportFailure(cause: string)          // error from http.Client.Do, returned as is
    | Cancelled                                // ctx.Err() during a backoff wait
    | NilResponse                              // a nil response dereferenced (a panic in Go)
    | CreateFailed(status: int)                // "create failed: <status>"
    | DeleteFailed(status: int)                // "delete failed: <status>"
    | SendingRequest(inner: ClientError)       // "sending request: %w"
    | ReadingResponse                          // "reading response: %w"
    | BadResponse(status: int, body: Body)     // "bad response (<code>): <body>"
    | UnexpectedFormat                         // "response doesn't match expected formats ..."
    | PageBudgetExhausted                      // the model's bound on the number of pages
}
