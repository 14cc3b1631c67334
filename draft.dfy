/** The earlier, single-file client (b2.go): the same response envelope,
    an upload that needs a lease the caller stored in the session beforehand,
    and downloads that hand back the raw response headers. */
module Draft {
  import opened Wire
  import opened Records
  import Envelope
  import Lease
  import Client

  /** The draft's B2 struct: the session plus the Upload field a caller sets
      after GetUploadURL. Nothing in the draft sets it. */
  datatype DraftSession = DraftSession(session: Session, upload: Option<Upload>)

  // The draft's readResp (b2.go:84-106) is the same envelope as
  // Envelope.ReadResp, which the calls below use.

  /** B2.UploadFile: without a stored lease it fails before building any
      request; with one it builds and sends the request Upload.UploadFile
      sends. */
  method UploadFile(d: DraftSession, t: Transport, lib: Codec, a: Lease.UploadArgs) returns (r: Result<FileInfo>)
    modifies t
    ensures d.upload.None? ==> r == Fail(ConfigError) && t.sent == old(t.sent) && t.replies == old(t.replies)
    ensures d.upload.Some? ==> Lease.UploadStep(d.upload.value, a, lib, old(t.sent), old(t.replies), t.sent, t.replies, r)
  {
    if d.upload.None? {
      return Fail(ConfigError);
    }
    r := Lease.UploadFile(d.upload.value, t, lib, a);
  }

  /** What a draft download returns: the gate's error, or the response
      headers as they came. No reply, or a 200 body that breaks while being
      copied, is a transport error. */
  function RawHeaders(reply: Option<Response>, decodeErr: Bytes -> Option<ApiErr>): (r: Result<Header>)
    ensures reply.Some? && reply.value.status == Envelope.GoodStatus && !reply.value.body.broken ==>
              r == Ok(reply.value.header)
    ensures r.Ok? <==> reply.Some? && reply.value.status == Envelope.GoodStatus && !reply.value.body.broken
    ensures r.Ok? ==> r.value == reply.value.header
    ensures reply.None? || (reply.value.status == Envelope.GoodStatus && reply.value.body.broken) ==>
              r == Fail(TransportError)
    ensures reply.Some? && reply.value.status != Envelope.GoodStatus ==>
              r.Fail? && Fail(r.error) == Envelope.ReadResp(reply.value, Envelope.NoTarget, decodeErr)
  {
    match Envelope.Gate(reply, decodeErr)
    case Fail(e) => Fail(e)
    case Ok(resp) => Ok(resp.header)
  }

  method DownloadFileById(d: DraftSession, fileId: string, sink: Sink, t: Transport, lib: Codec)
    returns (r: Result<Header>)
    modifies t, sink
    ensures t.sent == old(t.sent) + [Client.DownloadByIdRequest(d.session, fileId)]
    ensures t.replies == Remaining(old(t.replies))
    ensures sink.written == old(sink.written) + Envelope.Copied(NextResponse(old(t.replies)))
    ensures r == RawHeaders(NextResponse(old(t.replies)), lib.apiErr)
  {
    var resp := Envelope.Fetch(t, Client.DownloadByIdRequest(d.session, fileId), sink, lib.apiErr);
    if resp.Fail? {
      return Fail(resp.error);
    }
    r := Ok(resp.value.header);
  }

  method DownloadFileByName(d: DraftSession, bucketName: string, fileName: string, sink: Sink, t: Transport, lib: Codec)
    returns (r: Result<Header>)
    modifies t, sink
    ensures lib.encodePath(fileName).None? ==>
              r == Fail(InvalidName) && t.sent == old(t.sent) && t.replies == old(t.replies)
              && sink.written == old(sink.written)
    ensures lib.encodePath(fileName).Some? ==>
              && t.sent == old(t.sent) + [Client.DownloadByNameRequest(d.session, bucketName, lib.encodePath(fileName).value)]
              && t.replies == Remaining(old(t.replies))
              && sink.written == old(sink.written) + Envelope.Copied(NextResponse(old(t.replies)))
              && r == RawHeaders(NextResponse(old(t.replies)), lib.apiErr)
  {
    var encoded := lib.encodePath(fileName);
    if encoded.None? {
      return Fail(InvalidName);
    }
    var resp := Envelope.Fetch(t, Client.DownloadByNameRequest(d.session, bucketName, encoded.value), sink, lib.apiErr);
    if resp.Fail? {
      return Fail(resp.error);
    }
    r := Ok(resp.value.header);
  }
}
