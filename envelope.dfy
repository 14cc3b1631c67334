/** The response envelope every call goes through: readResp (b2/b2.go and, in
    the same words, b2.go) and the status gate of the two download calls. */
module Envelope {
  import opened Wire
  import opened Records

  /** The one status the service uses for success. */
  const GoodStatus: int := 200

  /** readResp: the body is read in full; on status 200 it is decoded into the
      requested shape, on any other status into the service's error record.
      Four outcomes, told apart by the caller: the payload, the service's error,
      a decode failure, a read failure. */
  function ReadResp<T>(resp: Response, decode: Bytes -> Option<T>, decodeErr: Bytes -> Option<ApiErr>): (r: Result<T>)
    ensures resp.body.broken ==> r == Fail(TransportError)
    ensures (r.Fail? && r.error.TransportError?) <==> resp.body.broken
    ensures r.Ok? <==> !resp.body.broken && resp.status == GoodStatus && decode(resp.body.data).Some?
    ensures r.Ok? ==> decode(resp.body.data) == Some(r.value)
    ensures (r.Fail? && r.error.ApiError?) <==>
            !resp.body.broken && resp.status != GoodStatus && decodeErr(resp.body.data).Some?
    ensures r.Fail? && r.error.ApiError? ==> decodeErr(resp.body.data) == Some(r.error.err)
    ensures r == Fail(DecodeError) <==>
            !resp.body.broken
            && (if resp.status == GoodStatus then decode(resp.body.data).None? else decodeErr(resp.body.data).None?)
    ensures r.Fail? ==> r.error.TransportError? || r.error.ApiError? || r.error.DecodeError?
  {
    if resp.body.broken then Fail(TransportError)
    else if resp.status == GoodStatus then
      match decode(resp.body.data)
      case Some(v) => Ok(v)
      case None => Fail(DecodeError)
    else
      match decodeErr(resp.body.data)
      case Some(e) => Fail(ApiError(e))
      case None => Fail(DecodeError)
  }

  /** A round trip followed by readResp; no response at all is a transport
      failure and nothing is decoded. */
  function Interpret<T>(reply: Option<Response>, decode: Bytes -> Option<T>, decodeErr: Bytes -> Option<ApiErr>): Result<T>
  {
    match reply
    case None => Fail(TransportError)
    case Some(resp) => ReadResp(resp, decode, decodeErr)
  }

  /** Send one request and read its response: the Do-then-readResp step that
      every call of the client repeats. */
  method Exchange<T>(t: Transport, req: Request, decode: Bytes -> Option<T>, decodeErr: Bytes -> Option<ApiErr>)
    returns (r: Result<T>)
    modifies t
    ensures t.sent == old(t.sent) + [req]
    ensures t.replies == Remaining(old(t.replies))
    ensures r == Interpret(NextResponse(old(t.replies)), decode, decodeErr)
  {
    var reply := t.Do(req);
    r := Interpret(reply, decode, decodeErr);
  }

  /** readResp(resp, nil): unmarshalling into no target always fails. */
  function NoTarget(data: Bytes): Option<()>
  {
    None
  }

  /** The download gate: a status other than 200 yields readResp's error and
      the body is never streamed; on 200 the body is streamed and the
      response is kept for its headers. */
  function Gate(reply: Option<Response>, decodeErr: Bytes -> Option<ApiErr>): (r: Result<Response>)
    ensures r.Ok? ==> reply == Some(r.value) && r.value.status == GoodStatus && !r.value.body.broken
    ensures reply.Some? && reply.value.status != GoodStatus ==>
              r.Fail? && Fail(r.error) == ReadResp(reply.value, NoTarget, decodeErr)
    ensures reply.Some? && reply.value.status == GoodStatus && !reply.value.body.broken ==> r == Ok(reply.value)
    ensures reply.None? || (reply.value.status == GoodStatus && reply.value.body.broken) ==> r == Fail(TransportError)
  {
    match reply
    case None => Fail(TransportError)
    case Some(resp) =>
      if resp.status != GoodStatus then Fail(ReadResp(resp, NoTarget, decodeErr).error)
      else if resp.body.broken then Fail(TransportError)
      else Ok(resp)
  }

  /** What a download writes into its sink: the whole body on status 200,
      nothing otherwise. */
  function Copied(reply: Option<Response>): Bytes
  {
    if reply.Some? && reply.value.status == GoodStatus then reply.value.body.data else []
  }

  /** Send a download request, gate on the status and stream the body into
      the sink. */
  method Fetch(t: Transport, req: Request, sink: Sink, decodeErr: Bytes -> Option<ApiErr>) returns (r: Result<Response>)
    modifies t, sink
    ensures t.sent == old(t.sent) + [req]
    ensures t.replies == Remaining(old(t.replies))
    ensures r == Gate(NextResponse(old(t.replies)), decodeErr)
    ensures sink.written == old(sink.written) + Copied(NextResponse(old(t.replies)))
  {
    var reply := t.Do(req);
    if reply.None? {
      return Fail(TransportError);
    }
    var resp := reply.value;
    if resp.status != GoodStatus {
      return Fail(ReadResp(resp, NoTarget, decodeErr).error);
    }
    var ok := sink.CopyFrom(resp.body);
    if !ok {
      return Fail(TransportError);
    }
    r := Ok(resp);
  }

  /** A status other than 200 never succeeds, whatever the decoders do. */
  lemma NonGoodStatusFails<T>(resp: Response, decode: Bytes -> Option<T>, decodeErr: Bytes -> Option<ApiErr>)
    requires resp.status != GoodStatus
    ensures ReadResp(resp, decode, decodeErr).Fail?
    ensures Gate(Some(resp), decodeErr).Fail? && Copied(Some(resp)) == []
  {
  }
}
