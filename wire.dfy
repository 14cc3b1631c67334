/** The wire-level vocabulary shared by every part of the client: bytes,
    HTTP headers, requests and responses, the abstract transport that carries
    them, the writer a download streams into, and the kinds of failure a call
    can report. */
module Wire {

  datatype Option<T> = None | Some(value: T)

  newtype byte = x: int | 0 <= x < 256
  type Bytes = seq<byte>

  /** A response header map as net/http hands it over: every name that is
      present carries at least one value (so taking the first is safe). */
  type Header = h: map<string, seq<string>> | forall k :: k in h ==> |h[k]| > 0

  /** http.Header.Get: the first value stored under a name, or "" when the
      name is absent. Names are taken as already canonical. */
  function Get(h: Header, name: string): string
  {
    if name in h then h[name][0] else ""
  }

  /** A response body. Reading it yields `data`; when `broken`, the read then
      fails (a connection dropped mid-body, say). */
  datatype Stream = Stream(data: Bytes, broken: bool)

  /** The JSON values the client ever puts in a request body. */
  datatype JsonValue = JStr(str: string) | JInt(num: int)

  /** A request body: none, a JSON object (as a field map: the order in which
      encoding/json writes the fields is not modelled), or an upload payload. */
  datatype Body = NoBody | Json(fields: map<string, JsonValue>) | Payload(stream: Stream)

  /** One HTTP request: verb, URL, the query parameters before encoding, the
      headers in the order they are added, the body, and an explicit content
      length when the caller sets one. */
  datatype Request = Request(
    verb: string,
    url: string,
    query: seq<(string, string)>,
    headers: seq<(string, string)>,
    body: Body,
    contentLength: Option<int>)

  datatype Response = Response(status: int, header: Header, body: Stream)

  /** What the network does with one request: no answer at all (refused,
      reset, timed out) or a response. */
  datatype Reply = Refused | Answered(response: Response)

  /** The response the transport gives to the next request: none once the
      script is exhausted or when the next reply is a refusal. */
  function NextResponse(replies: seq<Reply>): Option<Response>
  {
    if replies == [] then None
    else match replies[0]
      case Refused => None
      case Answered(resp) => Some(resp)
  }

  function Remaining(replies: seq<Reply>): seq<Reply>
  {
    if replies == [] then [] else replies[1..]
  }

  /** The abstract HTTP client (http.DefaultClient.Do). It records every
      request it is given, in order, and answers from a script of replies
      fixed by the environment; one request consumes one reply. */
  class Transport {
    var sent: seq<Request>
    var replies: seq<Reply>

    constructor (script: seq<Reply>)
      ensures sent == [] && replies == script
    {
      sent := [];
      replies := script;
    }

    method Do(req: Request) returns (r: Option<Response>)
      modifies this
      ensures sent == old(sent) + [req]
      ensures r == NextResponse(old(replies))
      ensures replies == Remaining(old(replies))
    {
      r := NextResponse(replies);
      sent := sent + [req];
      replies := Remaining(replies);
    }
  }

  /** The io.Writer a download streams into. */
  class Sink {
    var written: Bytes

    constructor ()
      ensures written == []
    {
      written := [];
    }

    /** io.Copy from a response body: everything the body yields is written,
        and the copy fails exactly when the body breaks. */
    method CopyFrom(s: Stream) returns (ok: bool)
      modifies this
      ensures written == old(written) + s.data
      ensures ok == !s.broken
    {
      written := written + s.data;
      ok := !s.broken;
    }
  }

  /** The service's own error record, decoded from a non-200 body. */
  datatype ApiErr = ApiErr(code: string, message: string, status: int)

  /** The failures a call can report, kept apart so that a caller can tell
      them from one another. */
  datatype ClientError =
    | TransportError         // the round trip, or reading or copying the body, failed
    | ApiError(err: ApiErr)  // the service answered with a status other than 200
    | DecodeError            // a body or a header could not be decoded into the expected shape
    | InvalidName            // url.Parse rejected a file name before any request was sent
    | ConfigError            // a local precondition failed before any request was sent

  datatype Result<T> = Ok(value: T) | Fail(error: ClientError)
}
