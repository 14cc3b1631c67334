/** The session's calls (b2/b2.go): the request each one sends, the reading
    of its response, the reconstruction of a FileInfo from download headers,
    and the loops that make listed entries refer back to the session. The
    calls that hand out Bucket handles are finished in module Buckets. */
module Client {
  import opened Wire
  import opened Numbers
  import opened Records
  import Envelope

  /** The API version path (b2/b2.go APIsuffix). */
  const APISuffix: string := "/b2api/v1"

  function Authorized(b: Session): seq<(string, string)>
  {
    [("Authorization", b.authToken)]
  }

  /** A POST of a JSON object to an API endpoint, with the session's token. */
  function ApiPost(b: Session, endpoint: string, fields: map<string, JsonValue>): Request
  {
    Request("POST", b.apiUrl + APISuffix + endpoint, [], Authorized(b), Json(fields), None)
  }

  // ---------------------------------------------------------------------
  // Requests

  /** b2_create_bucket takes its arguments as query parameters, not a body. */
  function CreateBucketRequest(b: Session, bucketName: string, bucketType: string): Request
  {
    Request("GET", b.apiUrl + APISuffix + "/b2_create_bucket",
            [("accountId", b.accountId), ("bucketName", bucketName), ("bucketType", bucketType)],
            Authorized(b), NoBody, None)
  }

  function DeleteBucketRequest(b: Session, bucketId: string): Request
  {
    ApiPost(b, "/b2_delete_bucket", map["accountId" := JStr(b.accountId), "bucketId" := JStr(bucketId)])
  }

  function GetUploadUrlRequest(b: Session, bucketId: string): Request
  {
    ApiPost(b, "/b2_get_upload_url", map["bucketId" := JStr(bucketId)])
  }

  function DownloadByIdRequest(b: Session, fileId: string): Request
  {
    Request("GET", b.downloadUrl + APISuffix + "/b2_download_file_by_id",
            [("fileId", fileId)], Authorized(b), NoBody, None)
  }

  /** The file name goes into the path in the form url.Parse(..).String() gives it. */
  function DownloadByNameRequest(b: Session, bucketName: string, encodedName: string): Request
  {
    Request("GET", b.downloadUrl + "/file/" + bucketName + "/" + encodedName, [], Authorized(b), NoBody, None)
  }

  function UpdateBucketRequest(b: Session, bucketId: string, bucketType: string): Request
  {
    ApiPost(b, "/b2_update_bucket",
            map["accountId" := JStr(b.accountId), "bucketId" := JStr(bucketId), "bucketType" := JStr(bucketType)])
  }

  function DeleteFileVersionRequest(b: Session, fileName: string, fileId: string): Request
  {
    ApiPost(b, "/b2_delete_file_version", map["fileName" := JStr(fileName), "fileId" := JStr(fileId)])
  }

  function ListBucketsRequest(b: Session): Request
  {
    ApiPost(b, "/b2_list_buckets", map["accountId" := JStr(b.accountId)])
  }

  function GetFileInfoRequest(b: Session, fileId: string): Request
  {
    ApiPost(b, "/b2_get_file_info", map["fileId" := JStr(fileId)])
  }

  function HideFileRequest(b: Session, bucketId: string, fileName: string): Request
  {
    ApiPost(b, "/b2_hide_file", map["bucketId" := JStr(bucketId), "fileName" := JStr(fileName)])
  }

  /** A string field tagged omitempty: left out when empty. */
  function PutString(m: map<string, JsonValue>, key: string, v: string): map<string, JsonValue>
  {
    if v == "" then m else m[key := JStr(v)]
  }

  /** An int field tagged omitempty: left out when zero. */
  function PutInt(m: map<string, JsonValue>, key: string, v: int): map<string, JsonValue>
  {
    if v == 0 then m else m[key := JInt(v)]
  }

  /** The body of b2_list_file_names: bucketId always, the cursor and the
      count only when set. */
  function ListFileNamesBody(bucketId: string, startFileName: string, maxFileCount: int): (m: map<string, JsonValue>)
    ensures m.Keys <= {"bucketId", "startFileName", "maxFileCount"}
    ensures "bucketId" in m && m["bucketId"] == JStr(bucketId)
    ensures "startFileName" in m <==> startFileName != ""
    ensures "startFileName" in m ==> m["startFileName"] == JStr(startFileName)
    ensures "maxFileCount" in m <==> maxFileCount != 0
    ensures "maxFileCount" in m ==> m["maxFileCount"] == JInt(maxFileCount)
  {
    PutInt(PutString(map["bucketId" := JStr(bucketId)], "startFileName", startFileName), "maxFileCount", maxFileCount)
  }

  /** The body of b2_list_file_versions: bucketId always, each cursor field
      and the count only when set; the two cursor fields are sent
      independently of each other. */
  function ListFileVersionsBody(bucketId: string, startFileName: string, startFileId: string, maxFileCount: int)
    : (m: map<string, JsonValue>)
    ensures m.Keys <= {"bucketId", "startFileName", "startFileId", "maxFileCount"}
    ensures "bucketId" in m && m["bucketId"] == JStr(bucketId)
    ensures "startFileName" in m <==> startFileName != ""
    ensures "startFileName" in m ==> m["startFileName"] == JStr(startFileName)
    ensures "startFileId" in m <==> startFileId != ""
    ensures "startFileId" in m ==> m["startFileId"] == JStr(startFileId)
    ensures "maxFileCount" in m <==> maxFileCount != 0
    ensures "maxFileCount" in m ==> m["maxFileCount"] == JInt(maxFileCount)
  {
    PutInt(PutString(PutString(map["bucketId" := JStr(bucketId)], "startFileName", startFileName),
                     "startFileId", startFileId),
           "maxFileCount", maxFileCount)
  }

  function ListFileNamesRequest(b: Session, bucketId: string, startFileName: string, maxFileCount: int): Request
  {
    ApiPost(b, "/b2_list_file_names", ListFileNamesBody(bucketId, startFileName, maxFileCount))
  }

  function ListFileVersionsRequest(b: Session, bucketId: string, startFileName: string, startFileId: string,
                                   maxFileCount: int): Request
  {
    ApiPost(b, "/b2_list_file_versions", ListFileVersionsBody(bucketId, startFileName, startFileId, maxFileCount))
  }

  /** How the service reads an optional field: a missing string is "", a
      missing count is 0. */
  function StringField(m: map<string, JsonValue>, key: string): string
  {
    if key in m && m[key].JStr? then m[key].str else ""
  }

  function IntField(m: map<string, JsonValue>, key: string): int
  {
    if key in m && m[key].JInt? then m[key].num else 0
  }

  /** Leaving out the defaults loses nothing: the service, reading absent
      fields as their defaults, recovers every argument. */
  lemma ListBodiesReadBack(bucketId: string, startFileName: string, startFileId: string, maxFileCount: int)
    ensures var m := ListFileNamesBody(bucketId, startFileName, maxFileCount);
            StringField(m, "bucketId") == bucketId && StringField(m, "startFileName") == startFileName
            && IntField(m, "maxFileCount") == maxFileCount
    ensures var m := ListFileVersionsBody(bucketId, startFileName, startFileId, maxFileCount);
            StringField(m, "bucketId") == bucketId && StringField(m, "startFileName") == startFileName
            && StringField(m, "startFileId") == startFileId && IntField(m, "maxFileCount") == maxFileCount
  {
  }

  // ---------------------------------------------------------------------
  // FileInfo from download headers (readHeaderFileInfo)

  /** The custom-info keys a set of header names carries. */
  function InfoKeys(h: Header, names: set<string>): set<string>
  {
    set name | name in names && name in h && IsInfoHeader(name) :: Strip(name)
  }

  /** Every info key comes from the header named by its prefixed form. */
  lemma InfoKeyTagged(h: Header, names: set<string>, key: string)
    requires key in InfoKeys(h, names)
    ensures InfoPrefix + key in names && InfoPrefix + key in h
  {
    var name :| name in names && name in h && IsInfoHeader(name) && Strip(name) == key;
    TagStrip(name);
  }

  /** The info map a set of header names contributes: each X-Bz-Info- name,
      with the prefix stripped, mapped to its first value. */
  function InfoOver(h: Header, names: set<string>): map<string, string>
  {
    assert forall key :: key in InfoKeys(h, names) ==> InfoPrefix + key in h by {
      forall key | key in InfoKeys(h, names)
        ensures InfoPrefix + key in h
      {
        InfoKeyTagged(h, names, key);
      }
    }
    map key | key in InfoKeys(h, names) :: h[InfoPrefix + key][0]
  }

  /** The Info map of a downloaded file. */
  function InfoOf(h: Header): map<string, string>
  {
    InfoOver(h, h.Keys)
  }

  /** An X-Bz-Info- header gives its stripped name its first value. */
  lemma InfoOfHas(h: Header, name: string)
    requires name in h && IsInfoHeader(name)
    ensures Strip(name) in InfoOf(h) && InfoOf(h)[Strip(name)] == h[name][0]
  {
    TagStrip(name);
  }

  /** An Info entry comes from the header named by the prefixed key. */
  lemma InfoOfFrom(h: Header, key: string)
    requires key in InfoOf(h)
    ensures InfoPrefix + key in h && InfoOf(h)[key] == h[InfoPrefix + key][0]
  {
    InfoKeyTagged(h, h.Keys, key);
  }

  /** Both directions of "every X-Bz-Info-<key> header gives Info[key] its
      first value": each such header has its entry, and each entry has its
      header. */
  lemma InfoOfEntries(h: Header)
    ensures forall name :: name in h && IsInfoHeader(name) ==>
              Strip(name) in InfoOf(h) && InfoOf(h)[Strip(name)] == h[name][0]
    ensures forall key :: key in InfoOf(h) ==> InfoPrefix + key in h && InfoOf(h)[key] == h[InfoPrefix + key][0]
  {
    forall name | name in h && IsInfoHeader(name)
      ensures Strip(name) in InfoOf(h) && InfoOf(h)[Strip(name)] == h[name][0]
    {
      InfoOfHas(h, name);
    }
    forall key | key in InfoOf(h)
      ensures InfoPrefix + key in h && InfoOf(h)[key] == h[InfoPrefix + key][0]
    {
      InfoOfFrom(h, key);
    }
  }

  predicate HasInfoHeader(h: Header)
  {
    exists name :: name in h && IsInfoHeader(name)
  }

  /** The straight-line part of readHeaderFileInfo: the session's account,
      then Content-Type, X-Bz-File-Id, Content-Length (strconv.ParseInt base
      10, int64), X-Bz-File-Name (url.QueryUnescape) and X-Bz-Content-Sha1.
      BucketID is never set from the headers. */
  function FixedFields(b: Session, h: Header, unescape: string -> Option<string>): Result<FileInfo>
  {
    match ParseInt(Get(h, "Content-Length"))
    case None => Fail(DecodeError)
    case Some(length) =>
      match unescape(Get(h, "X-Bz-File-Name"))
      case None => Fail(DecodeError)
      case Some(name) =>
        Ok(FileInfo(b.accountId, Get(h, "X-Bz-File-Id"), name, "", length,
                    Get(h, "X-Bz-Content-Sha1"), Get(h, "Content-Type"), map[], Some(b)))
  }

  /** The FileInfo a download's headers describe. */
  function HeaderFileInfo(b: Session, h: Header, unescape: string -> Option<string>): (r: Result<FileInfo>)
    ensures r.Ok? <==> ParseInt(Get(h, "Content-Length")).Some? && unescape(Get(h, "X-Bz-File-Name")).Some?
    ensures r.Fail? ==> r.error == DecodeError
    ensures r.Ok? ==>
              && r.value.accountId == b.accountId
              && r.value.contentType == Get(h, "Content-Type")
              && r.value.id == Get(h, "X-Bz-File-Id")
              && ParseInt(Get(h, "Content-Length")) == Some(r.value.length)
              && unescape(Get(h, "X-Bz-File-Name")) == Some(r.value.name)
              && r.value.sha1 == Get(h, "X-Bz-Content-Sha1")
              && r.value.bucketId == ""
              && r.value.info == InfoOf(h)
              && r.value.conn == Some(b)
  {
    match FixedFields(b, h, unescape)
    case Fail(e) => Fail(e)
    case Ok(fi) => Ok(fi.(info := InfoOf(h)))
  }

  /** A Go map variable: nil, or allocated with its entries. */
  datatype GoMap = Nil | Allocated(entries: map<string, string>)

  /** Folding one more header name into those already folded. */
  lemma InfoOverAdd(h: Header, names: set<string>, name: string)
    requires name in h && IsInfoHeader(name)
    ensures InfoOver(h, names + {name}) == InfoOver(h, names)[Strip(name) := h[name][0]]
  {
    var lhs := InfoOver(h, names + {name});
    var rhs := InfoOver(h, names)[Strip(name) := h[name][0]];
    forall y | y in lhs
      ensures y in rhs && lhs[y] == rhs[y]
    {
      var n :| n in names + {name} && n in h && IsInfoHeader(n) && Strip(n) == y;
      TagStrip(n);
      TagStrip(name);
    }
    forall y | y in rhs
      ensures y in lhs
    {
      if y != Strip(name) {
        var n :| n in names && n in h && IsInfoHeader(n) && Strip(n) == y;
        assert n in names + {name};
      }
    }
  }

  /** Writing a key into a union writes it into the right-hand map. */
  lemma UpdateUnion(a: map<string, string>, b: map<string, string>, k: string, v: string)
    ensures (a + b)[k := v] == a + b[k := v]
  {
  }

  /** A name without the prefix adds nothing. */
  lemma InfoOverSkip(h: Header, names: set<string>, name: string)
    requires !IsInfoHeader(name)
    ensures InfoOver(h, names + {name}) == InfoOver(h, names)
  {
  }

  /** One step of the fold: writing an info header's entry into the map
      folded so far gives the map of one more header name. */
  lemma FoldStep(h: Header, e: map<string, string>, done: set<string>, name: string)
    requires name in h
    ensures IsInfoHeader(name) ==>
              (e + InfoOver(h, done))[Strip(name) := h[name][0]] == e + InfoOver(h, done + {name})
    ensures !IsInfoHeader(name) ==> e + InfoOver(h, done) == e + InfoOver(h, done + {name})
  {
    if IsInfoHeader(name) {
      InfoOverAdd(h, done, name);
      UpdateUnion(e, InfoOver(h, done), Strip(name), h[name][0]);
    } else {
      InfoOverSkip(h, done, name);
    }
  }

  /** The loop of readHeaderFileInfo over the header map: each X-Bz-Info-
      header is written into the Info map under its stripped name. Writing
      into a nil map panics (None). */
  method FoldInfoHeaders(h: Header, start: GoMap) returns (r: Option<GoMap>)
    ensures start.Allocated? ==> r == Some(Allocated(start.entries + InfoOf(h)))
    ensures start.Nil? ==> (r.None? <==> HasInfoHeader(h))
    ensures start.Nil? && r.Some? ==> r.value == Nil
  {
    var g := start;
    var todo := h.Keys;
    ghost var done: set<string> := {};
    while todo != {}
      invariant done + todo == h.Keys && done !! todo
      invariant g.Allocated? == start.Allocated?
      invariant g.Allocated? ==> g.entries == start.entries + InfoOver(h, done)
      invariant g.Nil? ==> forall name :: name in done ==> !IsInfoHeader(name)
      decreases todo
    {
      var name :| name in todo;
      if g.Allocated? {
        FoldStep(h, start.entries, done, name);
      }
      if IsInfoHeader(name) {
        if g.Nil? {
          return None;
        }
        g := Allocated(g.entries[Strip(name) := h[name][0]]);
      }
      todo := todo - {name};
      done := done + {name};
    }
    assert done == h.Keys;
    r := Some(g);
  }

  /** readHeaderFileInfo with the Info map allocated before the loop. */
  method ReadHeaderFileInfo(b: Session, h: Header, unescape: string -> Option<string>) returns (r: Result<FileInfo>)
    ensures r == HeaderFileInfo(b, h, unescape)
  {
    var fixed := FixedFields(b, h, unescape);
    if fixed.Fail? {
      return fixed;
    }
    var folded := FoldInfoHeaders(h, Allocated(map[]));
    assert map[] + InfoOf(h) == InfoOf(h);
    r := Ok(fixed.value.(info := folded.value.entries));
  }

  /** readHeaderFileInfo as written: `&FileInfo{conn: b}` leaves Info nil,
      so the loop's first write panics (None). */
  method ReadHeaderFileInfoAsWritten(b: Session, h: Header, unescape: string -> Option<string>)
    returns (r: Option<Result<FileInfo>>)
    ensures HeaderFileInfo(b, h, unescape).Fail? ==> r == Some(HeaderFileInfo(b, h, unescape))
    ensures HeaderFileInfo(b, h, unescape).Ok? ==> (r.None? <==> HasInfoHeader(h))
    ensures r.Some? ==> r == Some(HeaderFileInfo(b, h, unescape))
  {
    var fixed := FixedFields(b, h, unescape);
    if fixed.Fail? {
      return Some(fixed);
    }
    var folded := FoldInfoHeaders(h, Nil);
    if folded.None? {
      return None;
    }
    NoInfoHeaderNoInfo(h);
    r := Some(Ok(fixed.value));
  }

  /** Without X-Bz-Info- headers the Info map is empty. */
  lemma NoInfoHeaderNoInfo(h: Header)
    requires !HasInfoHeader(h)
    ensures InfoOf(h) == map[]
  {
    assert InfoOf(h).Keys == {};
  }

  /** The header map of the counterexample: a length and one info header. */
  function AuthoredHeader(): Header
  {
    map["Content-Length" := ["5"], InfoPrefix + "author" := ["ann"]]
  }

  lemma AuthoredLength()
    ensures ParseInt(Get(AuthoredHeader(), "Content-Length")) == Some(5)
  {
    assert Get(AuthoredHeader(), "Content-Length") == "5";
    assert Unsigned("5") == "5";
    assert DigitsValue("5") == 5 by {
      assert "5"[..0] == "";
    }
  }

  /** A header map with one info header and one other header has that one
      entry as its Info map. */
  lemma OneInfoEntry(h: Header, other: string, key: string, value: string)
    requires h.Keys == {other, InfoPrefix + key} && !IsInfoHeader(other)
    requires h[InfoPrefix + key] == [value]
    ensures HasInfoHeader(h)
    ensures InfoOf(h) == map[key := value]
  {
    StripTag(key);
    InfoOfEntries(h);
    assert InfoOf(h).Keys == {key};
  }

  lemma AuthoredInfo()
    ensures HasInfoHeader(AuthoredHeader())
    ensures InfoOf(AuthoredHeader()) == map["author" := "ann"]
  {
    assert "Content-Length"[0] != InfoPrefix[0];
    OneInfoEntry(AuthoredHeader(), "Content-Length", "author", "ann");
  }

  /** A concrete input that parses and carries an info header, and for which
      the allocated map yields the intended Info entry. The panic itself
      follows from ReadHeaderFileInfoAsWritten's ensures: a successful parse
      with an info header present panics. */
  lemma AuthoredHeaderParses(b: Session)
    ensures HasInfoHeader(AuthoredHeader())
    ensures HeaderFileInfo(b, AuthoredHeader(), s => Some(s)).Ok?
    ensures HeaderFileInfo(b, AuthoredHeader(), s => Some(s)).value.info == map["author" := "ann"]
  {
    AuthoredLength();
    AuthoredInfo();
  }

  /** A Content-Length written as the decimal form of an int64 becomes the
      file's length. */
  lemma ContentLengthReadsBack(b: Session, h: Header, unescape: string -> Option<string>, n: int64)
    requires Get(h, "Content-Length") == FormatInt(n)
    requires unescape(Get(h, "X-Bz-File-Name")).Some?
    ensures HeaderFileInfo(b, h, unescape).Ok? && HeaderFileInfo(b, h, unescape).value.length == n
  {
    ParseFormatRoundTrip(n);
  }

  /** The header names an info map is sent under. */
  function TaggedKeys(info: map<string, string>): set<string>
  {
    set key | key in info :: InfoPrefix + key
  }

  /** Each tagged name is an info header whose key is in the map. */
  lemma TaggedName(info: map<string, string>, name: string)
    requires name in TaggedKeys(info)
    ensures IsInfoHeader(name) && Strip(name) in info
  {
    var key :| key in info && InfoPrefix + key == name;
    StripTag(key);
  }

  /** The response header a service would send back for an info map: one
      X-Bz-Info-<key> header with one value per entry. */
  function EchoedInfo(info: map<string, string>): Header
  {
    assert forall name :: name in TaggedKeys(info) ==> IsInfoHeader(name) && Strip(name) in info by {
      forall name | name in TaggedKeys(info)
        ensures IsInfoHeader(name) && Strip(name) in info
      {
        TaggedName(info, name);
      }
    }
    map name | name in TaggedKeys(info) :: [info[Strip(name)]]
  }

  /** Each entry has its header in the echoed header map. */
  lemma EchoedEntry(info: map<string, string>, key: string)
    requires key in info
    ensures InfoPrefix + key in EchoedInfo(info) && EchoedInfo(info)[InfoPrefix + key] == [info[key]]
  {
    StripTag(key);
    assert InfoPrefix + key in TaggedKeys(info);
  }

  /** Two maps with the same keys and the same values are equal. */
  lemma SameEntries(m: map<string, string>, n: map<string, string>)
    requires forall key :: key in n ==> key in m && m[key] == n[key]
    requires forall key :: key in m ==> key in n
    ensures m == n
  {
  }

  /** Stripping the prefix undoes prepending it: the info entries an upload
      sends as headers come back as the same Info map. */
  lemma InfoSurvivesHeaders(info: map<string, string>)
    ensures InfoOf(EchoedInfo(info)) == info
  {
    var h := EchoedInfo(info);
    var m := InfoOf(h);
    forall key | key in info
      ensures key in m && m[key] == info[key]
    {
      EchoedEntry(info, key);
      StripTag(key);
      InfoOfHas(h, InfoPrefix + key);
    }
    forall key | key in m
      ensures key in info
    {
      InfoOfFrom(h, key);
      TaggedName(info, InfoPrefix + key);
      StripTag(key);
    }
    SameEntries(m, info);
  }

  // ---------------------------------------------------------------------
  // Calls

  /** Each listed entry keeps its fields and refers back to the session. */
  predicate RefersBack(r: seq<FileName>, files: seq<FileName>, b: Session)
  {
    |r| == |files| && forall i :: 0 <= i < |files| ==> r[i] == files[i].(conn := Some(b))
  }

  /** Sets each listed file's session to the one the call went through. */
  method AttachSession(files: seq<FileName>, b: Session) returns (r: seq<FileName>)
    ensures RefersBack(r, files, b)
  {
    r := files;
    var i := 0;
    while i < |r|
      invariant 0 <= i <= |r| == |files|
      invariant forall j :: 0 <= j < i ==> r[j] == files[j].(conn := Some(b))
      invariant forall j :: i <= j < |r| ==> r[j] == files[j]
    {
      r := r[i := r[i].(conn := Some(b))];
      i := i + 1;
    }
  }

  /** A decoded FileInfo handed out with the session as its conn. */
  function InfoWithConn(r: Result<FileInfo>, b: Session): Result<FileInfo>
  {
    match r
    case Ok(fi) => Ok(fi.(conn := Some(b)))
    case Fail(e) => Fail(e)
  }

  function NameWithConn(r: Result<FileName>, b: Session): Result<FileName>
  {
    match r
    case Ok(fn) => Ok(fn.(conn := Some(b)))
    case Fail(e) => Fail(e)
  }

  /** What ListFileNames returns for a reply: (files, nextFileName). */
  ghost predicate ListedNames(reply: Option<Response>, lib: Codec, b: Session, r: Result<(seq<FileName>, string)>)
  {
    match Envelope.Interpret(reply, lib.fileNames, lib.apiErr)
    case Fail(e) => r == Fail(e)
    case Ok(list) => r.Ok? && RefersBack(r.value.0, list.files, b) && r.value.1 == list.nextFileName
  }

  /** What ListFileVersions returns for a reply: (files, nextFileId,
      nextFileName), in that order. */
  ghost predicate ListedVersions(reply: Option<Response>, lib: Codec, b: Session,
                                 r: Result<(seq<FileName>, string, string)>)
  {
    match Envelope.Interpret(reply, lib.fileVersions, lib.apiErr)
    case Fail(e) => r == Fail(e)
    case Ok(list) =>
      r.Ok? && RefersBack(r.value.0, list.files, b) && r.value.1 == list.nextFileId && r.value.2 == list.nextFileName
  }

  /** b2_create_bucket; the handle is built in Buckets.CreateBucket. */
  method CreateBucket(b: Session, bucketName: string, bucketType: string, t: Transport, lib: Codec)
    returns (r: Result<BucketRecord>)
    modifies t
    ensures t.sent == old(t.sent) + [CreateBucketRequest(b, bucketName, bucketType)]
    ensures t.replies == Remaining(old(t.replies))
    ensures r == Envelope.Interpret(NextResponse(old(t.replies)), lib.bucket, lib.apiErr)
  {
    r := Envelope.Exchange(t, CreateBucketRequest(b, bucketName, bucketType), lib.bucket, lib.apiErr);
  }

  method DeleteBucket(b: Session, bucketId: string, t: Transport, lib: Codec) returns (r: Result<BucketRecord>)
    modifies t
    ensures t.sent == old(t.sent) + [DeleteBucketRequest(b, bucketId)]
    ensures t.replies == Remaining(old(t.replies))
    ensures r == Envelope.Interpret(NextResponse(old(t.replies)), lib.bucket, lib.apiErr)
  {
    r := Envelope.Exchange(t, DeleteBucketRequest(b, bucketId), lib.bucket, lib.apiErr);
  }

  /** b2_get_upload_url: one request per call, never retried. */
  method GetUploadUrl(b: Session, bucketId: string, t: Transport, lib: Codec) returns (r: Result<Upload>)
    modifies t
    ensures t.sent == old(t.sent) + [GetUploadUrlRequest(b, bucketId)]
    ensures t.replies == Remaining(old(t.replies))
    ensures r == Envelope.Interpret(NextResponse(old(t.replies)), lib.upload, lib.apiErr)
  {
    r := Envelope.Exchange(t, GetUploadUrlRequest(b, bucketId), lib.upload, lib.apiErr);
  }

  method UpdateBucket(b: Session, bucketId: string, bucketType: string, t: Transport, lib: Codec)
    returns (r: Result<BucketRecord>)
    modifies t
    ensures t.sent == old(t.sent) + [UpdateBucketRequest(b, bucketId, bucketType)]
    ensures t.replies == Remaining(old(t.replies))
    ensures r == Envelope.Interpret(NextResponse(old(t.replies)), lib.bucket, lib.apiErr)
  {
    r := Envelope.Exchange(t, UpdateBucketRequest(b, bucketId, bucketType), lib.bucket, lib.apiErr);
  }

  method DeleteFileVersion(b: Session, fileName: string, fileId: string, t: Transport, lib: Codec)
    returns (r: Result<FileInfo>)
    modifies t
    ensures t.sent == old(t.sent) + [DeleteFileVersionRequest(b, fileName, fileId)]
    ensures t.replies == Remaining(old(t.replies))
    ensures r == InfoWithConn(Envelope.Interpret(NextResponse(old(t.replies)), lib.fileInfo, lib.apiErr), b)
  {
    var fi := Envelope.Exchange(t, DeleteFileVersionRequest(b, fileName, fileId), lib.fileInfo, lib.apiErr);
    r := InfoWithConn(fi, b);
  }

  /** b2_list_buckets, returning the decoded records; Buckets.ListBuckets
      turns them into handles. */
  method ListBucketRecords(b: Session, t: Transport, lib: Codec) returns (r: Result<seq<BucketRecord>>)
    modifies t
    ensures t.sent == old(t.sent) + [ListBucketsRequest(b)]
    ensures t.replies == Remaining(old(t.replies))
    ensures r == Envelope.Interpret(NextResponse(old(t.replies)), lib.buckets, lib.apiErr)
  {
    r := Envelope.Exchange(t, ListBucketsRequest(b), lib.buckets, lib.apiErr);
  }

  method ListFileNames(b: Session, bucketId: string, startFileName: string, maxFileCount: int,
                       t: Transport, lib: Codec)
    returns (r: Result<(seq<FileName>, string)>)
    modifies t
    ensures t.sent == old(t.sent) + [ListFileNamesRequest(b, bucketId, startFileName, maxFileCount)]
    ensures t.replies == Remaining(old(t.replies))
    ensures ListedNames(NextResponse(old(t.replies)), lib, b, r)
  {
    var list := Envelope.Exchange(t, ListFileNamesRequest(b, bucketId, startFileName, maxFileCount),
                                  lib.fileNames, lib.apiErr);
    if list.Fail? {
      return Fail(list.error);
    }
    var files := AttachSession(list.value.files, b);
    r := Ok((files, list.value.nextFileName));
  }

  method ListFileVersions(b: Session, bucketId: string, startFileName: string, startFileId: string,
                          maxFileCount: int, t: Transport, lib: Codec)
    returns (r: Result<(seq<FileName>, string, string)>)
    modifies t
    ensures t.sent == old(t.sent) + [ListFileVersionsRequest(b, bucketId, startFileName, startFileId, maxFileCount)]
    ensures t.replies == Remaining(old(t.replies))
    ensures ListedVersions(NextResponse(old(t.replies)), lib, b, r)
  {
    var list := Envelope.Exchange(t, ListFileVersionsRequest(b, bucketId, startFileName, startFileId, maxFileCount),
                                  lib.fileVersions, lib.apiErr);
    if list.Fail? {
      return Fail(list.error);
    }
    var files := AttachSession(list.value.files, b);
    r := Ok((files, list.value.nextFileId, list.value.nextFileName));
  }

  method GetFileInfo(b: Session, fileId: string, t: Transport, lib: Codec) returns (r: Result<FileInfo>)
    modifies t
    ensures t.sent == old(t.sent) + [GetFileInfoRequest(b, fileId)]
    ensures t.replies == Remaining(old(t.replies))
    ensures r == InfoWithConn(Envelope.Interpret(NextResponse(old(t.replies)), lib.fileInfo, lib.apiErr), b)
  {
    var fi := Envelope.Exchange(t, GetFileInfoRequest(b, fileId), lib.fileInfo, lib.apiErr);
    r := InfoWithConn(fi, b);
  }

  method HideFile(b: Session, bucketId: string, fileName: string, t: Transport, lib: Codec)
    returns (r: Result<FileName>)
    modifies t
    ensures t.sent == old(t.sent) + [HideFileRequest(b, bucketId, fileName)]
    ensures t.replies == Remaining(old(t.replies))
    ensures r == NameWithConn(Envelope.Interpret(NextResponse(old(t.replies)), lib.fileName, lib.apiErr), b)
  {
    var fn := Envelope.Exchange(t, HideFileRequest(b, bucketId, fileName), lib.fileName, lib.apiErr);
    r := NameWithConn(fn, b);
  }

  /** What a download returns for a reply: the gate's error, or the
      FileInfo the response headers describe. */
  function Downloaded(reply: Option<Response>, b: Session, lib: Codec): Result<FileInfo>
  {
    match Envelope.Gate(reply, lib.apiErr)
    case Fail(e) => Fail(e)
    case Ok(resp) => HeaderFileInfo(b, resp.header, lib.unescape)
  }

  /** DownloadFileByID: the body goes to the sink only on status 200, and
      only then are the headers parsed. */
  method DownloadFileById(b: Session, fileId: string, sink: Sink, t: Transport, lib: Codec)
    returns (r: Result<FileInfo>)
    modifies t, sink
    ensures t.sent == old(t.sent) + [DownloadByIdRequest(b, fileId)]
    ensures t.replies == Remaining(old(t.replies))
    ensures sink.written == old(sink.written) + Envelope.Copied(NextResponse(old(t.replies)))
    ensures r == Downloaded(NextResponse(old(t.replies)), b, lib)
  {
    var resp := Envelope.Fetch(t, DownloadByIdRequest(b, fileId), sink, lib.apiErr);
    if resp.Fail? {
      return Fail(resp.error);
    }
    r := ReadHeaderFileInfo(b, resp.value.header, lib.unescape);
  }

  /** DownloadFileByName: a file name url.Parse rejects fails before any
      request; otherwise as DownloadFileById. */
  method DownloadFileByName(b: Session, bucketName: string, fileName: string, sink: Sink, t: Transport, lib: Codec)
    returns (r: Result<FileInfo>)
    modifies t, sink
    ensures lib.encodePath(fileName).None? ==>
              r == Fail(InvalidName) && t.sent == old(t.sent) && t.replies == old(t.replies)
              && sink.written == old(sink.written)
    ensures lib.encodePath(fileName).Some? ==>
              && t.sent == old(t.sent) + [DownloadByNameRequest(b, bucketName, lib.encodePath(fileName).value)]
              && t.replies == Remaining(old(t.replies))
              && sink.written == old(sink.written) + Envelope.Copied(NextResponse(old(t.replies)))
              && r == Downloaded(NextResponse(old(t.replies)), b, lib)
  {
    var encoded := lib.encodePath(fileName);
    if encoded.None? {
      return Fail(InvalidName);
    }
    var resp := Envelope.Fetch(t, DownloadByNameRequest(b, bucketName, encoded.value), sink, lib.apiErr);
    if resp.Fail? {
      return Fail(resp.error);
    }
    r := ReadHeaderFileInfo(b, resp.value.header, lib.unescape);
  }

  /** A download that does not get status 200 fails with readResp's error,
      never with a parse of its headers, and writes nothing. */
  lemma FailedDownloadParsesNothing(resp: Response, b: Session, lib: Codec)
    requires resp.status != Envelope.GoodStatus
    ensures Downloaded(Some(resp), b, lib).Fail?
    ensures Fail(Downloaded(Some(resp), b, lib).error) == Envelope.ReadResp(resp, Envelope.NoTarget, lib.apiErr)
    ensures Envelope.Copied(Some(resp)) == []
  {
  }
}
