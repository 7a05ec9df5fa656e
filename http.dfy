/** The network as the request layer sees it: requests it builds, replies `fetch` gives
    back, and the network itself as an object that logs every request sent and answers
    the k-th one through an arbitrary oracle. */
module Http {
  import opened Wrappers
  import opened Json
  import Text

  /** `API_BASE_URL` when no environment override is configured. */
  const BaseUrl: string := "http://localhost:8000"

  /** A request body: none, `JSON.stringify(value)`, or a multipart `FormData`. */
  datatype Body = NoBody | JsonBody(value: JsonValue) | FormBody(fields: seq<(string, string)>)

  datatype Request = Request(verb: string, url: string, headers: map<string, string>, body: Body)

  /** What `fetch` settles with: a response (its status, status text, `content-type`
      header and what `response.json()` would give), or a rejection with the transport
      error's message. */
  datatype Reply =
    | Response(status: int, statusText: string, contentType: Option<string>, body: Parse)
    | TransportError(message: string)

  /** `response.ok`. */
  predicate IsOk(status: int)
  {
    200 <= status <= 299
  }

  /** `contentType && contentType.includes('application/json')`. */
  predicate IsJsonContentType(contentType: Option<string>)
  {
    contentType.Some? && Text.Contains(contentType.value, "application/json")
  }

  /** The network. `sent` is every request fetched so far, in order; the k-th request
      (counting from 0) is answered by `respond(k, request)`. */
  class Network {
    var sent: seq<Request>
    const respond: (nat, Request) -> Reply

    constructor (respond: (nat, Request) -> Reply)
      ensures this.respond == respond && sent == []
    {
      this.respond := respond;
      sent := [];
    }

    /** `fetch(url, config)`. */
    method Fetch(request: Request) returns (reply: Reply)
      modifies this`sent
      ensures sent == old(sent) + [request]
      ensures reply == respond(|old(sent)|, request)
    {
      reply := respond(|sent|, request);
      sent := sent + [request];
    }
  }
}
