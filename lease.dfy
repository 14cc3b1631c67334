/** Uploading through a lease (b2/upload.go, Upload.UploadFile): the request
    built from the upload arguments, then one exchange with the lease's URL. */
module Lease {
  import opened Wire
  import opened Numbers
  import opened Records
  import Envelope

  /** The content type that asks the service to detect the type itself. */
  const AutoContentType: string := "b2/x-auto"

  /** The reserved info header that carries the modification time. */
  const MtimeHeader: string := "X-Bz-Info-src_last_modified_millis"

  const NanosPerMilli: int := 1000000

  /** The arguments UploadFile takes after the reader: the body, the file
      name, its size, the content type, the caller's sha1, an optional
      modification time in nanoseconds since the epoch (mtime.UnixNano()), and
      an optional (possibly nil) custom-info map. */
  datatype UploadArgs = UploadArgs(
    data: Stream,
    fileName: string,
    fileSize: int64,
    contentType: string,
    sha1: string,
    mtime: Option<int64>,
    info: Option<map<string, string>>)

  /** Go's ns / 1000000 on int64: the quotient truncated toward zero. */
  function Millis(ns: int64): (ms: int64)
    ensures 0 <= ns ==> 0 <= ms && ms * NanosPerMilli <= ns < ms * NanosPerMilli + NanosPerMilli
    ensures ns < 0 ==> ms <= 0 && ms * NanosPerMilli - NanosPerMilli < ns <= ms * NanosPerMilli
  {
    if ns >= 0 then ns / NanosPerMilli else -((-(ns as int)) / NanosPerMilli)
  }

  function ContentTypeOrAuto(contentType: string): string
  {
    if contentType == "" then AutoContentType else contentType
  }

  /** The four headers every upload carries, in the order they are added. */
  function FixedHeaders(u: Upload, encodedName: string, contentType: string, sha1: string): seq<(string, string)>
  {
    [ ("Authorization", u.authToken),
      ("X-Bz-File-Name", encodedName),
      ("Content-Type", ContentTypeOrAuto(contentType)),
      ("X-Bz-Content-Sha1", sha1) ]
  }

  /** The modification-time header, present exactly when a time is given. */
  function MtimeHeaders(mtime: Option<int64>): seq<(string, string)>
  {
    match mtime
    case None => []
    case Some(ns) => [(MtimeHeader, FormatInt(Millis(ns)))]
  }

  /** The info headers for the keys of `info` taken in the order `keys` gives. */
  function InfoHeadersOf(keys: seq<string>, info: map<string, string>): seq<(string, string)>
    requires forall i :: 0 <= i < |keys| ==> keys[i] in info
  {
    if keys == [] then []
    else InfoHeadersOf(keys[..|keys| - 1], info) + [(InfoPrefix + keys[|keys| - 1], info[keys[|keys| - 1]])]
  }

  /** `keys` lists every key of `info`, each once. */
  predicate Enumerates(keys: seq<string>, info: map<string, string>)
  {
    && (forall i, j :: 0 <= i < j < |keys| ==> keys[i] != keys[j])
    && (forall i :: 0 <= i < |keys| ==> keys[i] in info)
    && (forall k :: k in info ==> k in keys)
  }

  /** `hs` holds one X-Bz-Info-<key>: <value> header per entry of `info`, in
      some order: Go ranges over a map in no fixed order. */
  ghost predicate OneHeaderPerEntry(hs: seq<(string, string)>, info: map<string, string>)
  {
    exists keys :: Enumerates(keys, info) && hs == InfoHeadersOf(keys, info)
  }

  function InfoOrEmpty(info: Option<map<string, string>>): map<string, string>
  {
    if info.Some? then info.value else map[]
  }

  /** The request UploadFile sends: a POST of the data to the lease's URL
      with the caller's size as content length, the fixed headers, the
      modification-time header and one header per info entry. */
  ghost predicate IsUploadRequest(req: Request, u: Upload, a: UploadArgs, encodedName: string)
  {
    var fixed := FixedHeaders(u, encodedName, a.contentType, a.sha1) + MtimeHeaders(a.mtime);
    && req.verb == "POST"
    && req.url == u.uploadUrl
    && req.query == []
    && req.body == Payload(a.data)
    && req.contentLength == Some(a.fileSize)
    && |fixed| <= |req.headers|
    && req.headers[..|fixed|] == fixed
    && OneHeaderPerEntry(req.headers[|fixed|..], InfoOrEmpty(a.info))
  }

  /** The loop of UploadFile over the info map: one Header.Add per entry,
      taken in whatever order the map yields them. */
  method AddInfoHeaders(headers0: seq<(string, string)>, info: map<string, string>)
    returns (headers: seq<(string, string)>, ghost keys: seq<string>)
    ensures Enumerates(keys, info)
    ensures headers == headers0 + InfoHeadersOf(keys, info)
  {
    headers := headers0;
    keys := [];
    var todo := info.Keys;
    while todo != {}
      invariant todo <= info.Keys
      invariant forall i :: 0 <= i < |keys| ==> keys[i] in info && keys[i] !in todo
      invariant forall i, j :: 0 <= i < j < |keys| ==> keys[i] != keys[j]
      invariant forall k :: k in info && k !in todo ==> k in keys
      invariant headers == headers0 + InfoHeadersOf(keys, info)
      decreases todo
    {
      var name :| name in todo;
      headers := headers + [(InfoPrefix + name, info[name])];
      assert (keys + [name])[..|keys|] == keys;
      keys := keys + [name];
      todo := todo - {name};
    }
  }

  /** The header construction of Upload.UploadFile. url.Parse rejecting the
      file name is the only failure, and it comes before any request. */
  method BuildUploadRequest(u: Upload, a: UploadArgs, encodePath: string -> Option<string>) returns (r: Result<Request>)
    ensures r.Fail? <==> encodePath(a.fileName).None?
    ensures r.Fail? ==> r.error == InvalidName
    ensures r.Ok? ==> IsUploadRequest(r.value, u, a, encodePath(a.fileName).value)
  {
    var contentType := a.contentType;
    if contentType == "" {
      contentType := AutoContentType;
    }
    var encoded := encodePath(a.fileName);
    if encoded.None? {
      return Fail(InvalidName);
    }
    var fileName := encoded.value;
    var headers := [("Authorization", u.authToken)];
    headers := headers + [("X-Bz-File-Name", fileName)];
    headers := headers + [("Content-Type", contentType)];
    headers := headers + [("X-Bz-Content-Sha1", a.sha1)];
    if a.mtime.Some? {
      headers := headers + [(MtimeHeader, FormatInt(Millis(a.mtime.value)))];
    }
    if a.info.Some? {
      ghost var keys;
      ghost var fixed := headers;
      headers, keys := AddInfoHeaders(headers, a.info.value);
      assert headers[|fixed|..] == InfoHeadersOf(keys, a.info.value);
    } else {
      assert Enumerates([], InfoOrEmpty(a.info));
    }
    r := Ok(Request("POST", u.uploadUrl, [], headers, Payload(a.data), Some(a.fileSize)));
  }

  /** What UploadFile returns for a reply: the decoded FileInfo. It refers
      back to no session, since &FileInfo{} leaves conn nil. */
  function UploadOutcome(reply: Option<Response>, lib: Codec): Result<FileInfo>
  {
    match Envelope.Interpret(reply, lib.fileInfo, lib.apiErr)
    case Ok(fi) => Ok(fi.(conn := None))
    case Fail(e) => Fail(e)
  }

  /** One call of UploadFile with lease `u`, from transport state
      (sent0, replies0) to (sent1, replies1) with result r: a name url.Parse
      rejects sends nothing; otherwise exactly one upload request is sent. */
  ghost predicate UploadStep(u: Upload, a: UploadArgs, lib: Codec,
                             sent0: seq<Request>, replies0: seq<Reply>,
                             sent1: seq<Request>, replies1: seq<Reply>, r: Result<FileInfo>)
  {
    match lib.encodePath(a.fileName)
    case None => r == Fail(InvalidName) && sent1 == sent0 && replies1 == replies0
    case Some(encoded) =>
      && |sent1| == |sent0| + 1
      && sent1[..|sent0|] == sent0
      && IsUploadRequest(sent1[|sent0|], u, a, encoded)
      && replies1 == Remaining(replies0)
      && r == UploadOutcome(NextResponse(replies0), lib)
  }

  /** Upload.UploadFile. */
  method UploadFile(u: Upload, t: Transport, lib: Codec, a: UploadArgs) returns (r: Result<FileInfo>)
    modifies t
    ensures UploadStep(u, a, lib, old(t.sent), old(t.replies), t.sent, t.replies, r)
  {
    var req := BuildUploadRequest(u, a, lib.encodePath);
    if req.Fail? {
      return Fail(req.error);
    }
    var fi := Envelope.Exchange(t, req.value, lib.fileInfo, lib.apiErr);
    r := match fi
      case Ok(v) => Ok(v.(conn := None))
      case Fail(e) => Fail(e);
  }

  /** One info header per listed key. */
  lemma {:induction false} InfoHeadersLength(keys: seq<string>, info: map<string, string>)
    requires forall j :: 0 <= j < |keys| ==> keys[j] in info
    ensures |InfoHeadersOf(keys, info)| == |keys|
  {
    if keys != [] {
      InfoHeadersLength(keys[..|keys| - 1], info);
    }
  }

  /** Position i of the info headers is the header of the i-th listed key. */
  lemma {:induction false} InfoHeaderAt(keys: seq<string>, info: map<string, string>, i: nat)
    requires forall j :: 0 <= j < |keys| ==> keys[j] in info
    requires i < |keys|
    ensures |InfoHeadersOf(keys, info)| == |keys|
    ensures InfoHeadersOf(keys, info)[i] == (InfoPrefix + keys[i], info[keys[i]])
  {
    var init := keys[..|keys| - 1];
    if i < |init| {
      InfoHeaderAt(init, info, i);
    } else if |init| > 0 {
      InfoHeaderAt(init, info, 0);
    }
  }

  /** Each info entry (k, v) yields exactly one header named X-Bz-Info-k,
      and its value is v; every info header comes from an entry. */
  lemma InfoHeadersExactlyOnce(hs: seq<(string, string)>, info: map<string, string>, k: string)
    requires OneHeaderPerEntry(hs, info)
    requires k in info
    ensures exists j :: 0 <= j < |hs| && hs[j] == (InfoPrefix + k, info[k])
    ensures forall j1, j2 :: 0 <= j1 < |hs| && 0 <= j2 < |hs| && hs[j1].0 == InfoPrefix + k && hs[j2].0 == InfoPrefix + k ==> j1 == j2
    ensures forall j :: 0 <= j < |hs| ==>
              exists k' :: k' in info && hs[j] == (InfoPrefix + k', info[k'])
  {
    var keys :| Enumerates(keys, info) && hs == InfoHeadersOf(keys, info);
    var i :| 0 <= i < |keys| && keys[i] == k;
    InfoHeaderAt(keys, info, i);
    forall j1, j2 | 0 <= j1 < |hs| && 0 <= j2 < |hs| && hs[j1].0 == InfoPrefix + k && hs[j2].0 == InfoPrefix + k
      ensures j1 == j2
    {
      InfoHeaderAt(keys, info, j1);
      InfoHeaderAt(keys, info, j2);
      PrefixCancels(keys[j1], k);
      PrefixCancels(keys[j2], k);
    }
    forall j | 0 <= j < |hs|
      ensures exists k' :: k' in info && hs[j] == (InfoPrefix + k', info[k'])
    {
      InfoHeaderAt(keys, info, j);
    }
  }

  /** A nil (or empty) info map adds no header. */
  lemma NoInfoNoHeaders(hs: seq<(string, string)>)
    requires OneHeaderPerEntry(hs, map[])
    ensures hs == []
  {
    var empty: map<string, string> := map[];
    var keys :| Enumerates(keys, empty) && hs == InfoHeadersOf(keys, empty);
  }

  /** The modification-time header carries the truncated milliseconds as
      decimal text that reads back as that number. */
  lemma MtimeHeaderReadsBack(ns: int64)
    ensures MtimeHeaders(Some(ns)) == [(MtimeHeader, MtimeHeaders(Some(ns))[0].1)]
    ensures ParseInt(MtimeHeaders(Some(ns))[0].1) == Some(Millis(ns))
  {
    ParseFormatRoundTrip(Millis(ns));
  }

  /** The first four headers of an upload: the lease's token (not the
      session's), the encoded name, the content type with "" replaced by
      b2/x-auto and any other value kept, and the caller's sha1 verbatim. */
  lemma UploadRequestHeaders(req: Request, u: Upload, a: UploadArgs, encodedName: string)
    requires IsUploadRequest(req, u, a, encodedName)
    ensures |req.headers| >= 4
    ensures req.headers[0] == ("Authorization", u.authToken)
    ensures req.headers[1] == ("X-Bz-File-Name", encodedName)
    ensures a.contentType == "" ==> req.headers[2] == ("Content-Type", AutoContentType)
    ensures a.contentType != "" ==> req.headers[2] == ("Content-Type", a.contentType)
    ensures req.headers[3] == ("X-Bz-Content-Sha1", a.sha1)
  {
    var fixed := FixedHeaders(u, encodedName, a.contentType, a.sha1) + MtimeHeaders(a.mtime);
    assert req.headers[..|fixed|] == fixed;
    assert req.headers[..|fixed|][..4] == req.headers[..4];
  }

  /** The custom-info key the modification-time header would carry. */
  const MtimeKey: string := "src_last_modified_millis"

  /** The fixed headers are none of them the modification-time header. */
  lemma FixedHeadersNotMtime(u: Upload, encodedName: string, contentType: string, sha1: string, j: nat)
    requires j < 4
    ensures FixedHeaders(u, encodedName, contentType, sha1)[j].0 != MtimeHeader
  {
    var names := ["Authorization", "X-Bz-File-Name", "Content-Type", "X-Bz-Content-Sha1"];
    assert FixedHeaders(u, encodedName, contentType, sha1)[j].0 == names[j];
    assert MtimeHeader[5] == 'I' && MtimeHeader[0] == 'X';
    assert names[0][0] == 'A' && names[2][0] == 'C';
    assert names[1][5] == 'F' && names[3][5] == 'C';
  }

  /** Whatever the info map holds, a given time puts the modification-time
      header, with the truncated milliseconds, as the fifth header added. */
  lemma MtimeHeaderFifth(req: Request, u: Upload, a: UploadArgs, encodedName: string)
    requires IsUploadRequest(req, u, a, encodedName)
    requires a.mtime.Some?
    ensures |req.headers| > 4 && req.headers[4] == (MtimeHeader, FormatInt(Millis(a.mtime.value)))
  {
    var fixed := FixedHeaders(u, encodedName, a.contentType, a.sha1) + MtimeHeaders(a.mtime);
    assert req.headers[..|fixed|] == fixed;
    assert req.headers[4] == fixed[4];
  }

  /** With no custom-info entry of that key, the modification-time header is
      present exactly when a time is given, and then it is the fifth header
      added and carries the truncated milliseconds. */
  lemma MtimeHeaderPresence(req: Request, u: Upload, a: UploadArgs, encodedName: string)
    requires IsUploadRequest(req, u, a, encodedName)
    requires MtimeKey !in InfoOrEmpty(a.info)
    ensures (exists j :: 0 <= j < |req.headers| && req.headers[j].0 == MtimeHeader) <==> a.mtime.Some?
    ensures a.mtime.Some? ==> |req.headers| > 4 && req.headers[4] == (MtimeHeader, FormatInt(Millis(a.mtime.value)))
  {
    var fixed := FixedHeaders(u, encodedName, a.contentType, a.sha1) + MtimeHeaders(a.mtime);
    assert req.headers[..|fixed|] == fixed;
    assert MtimeHeader == InfoPrefix + MtimeKey;
    if a.mtime.Some? {
      MtimeHeaderFifth(req, u, a, encodedName);
    } else {
      forall j | 0 <= j < |req.headers|
        ensures req.headers[j].0 != MtimeHeader
      {
        if j < 4 {
          FixedHeadersNotMtime(u, encodedName, a.contentType, a.sha1, j);
          assert req.headers[j] == fixed[j];
        } else {
          var hs := req.headers[4..];
          assert req.headers[j] == hs[j - 4];
          var keys :| Enumerates(keys, InfoOrEmpty(a.info)) && hs == InfoHeadersOf(keys, InfoOrEmpty(a.info));
          InfoHeadersLength(keys, InfoOrEmpty(a.info));
          InfoHeaderAt(keys, InfoOrEmpty(a.info), j - 4);
          if hs[j - 4].0 == MtimeHeader {
            PrefixCancels(keys[j - 4], MtimeKey);
          }
        }
      }
    }
  }
}
