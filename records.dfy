/** The records the service's JSON bodies decode into (b2/b2.go, b2/upload.go,
    b2/fileinfo.go, b2/filename.go), the session they refer back to, and the
    library functions the client relies on but does not define: JSON decoding
    and the two URL routines net/url provides. */
module Records {
  import opened Wire
  import opened Numbers

  /** The prefix of every custom-info header (b2/b2.go HeaderInfoPrefix). */
  const InfoPrefix: string := "X-Bz-Info-"

  /** strings.HasPrefix(name, InfoPrefix): exact and case-sensitive. */
  predicate IsInfoHeader(name: string)
  {
    |InfoPrefix| <= |name| && name[..|InfoPrefix|] == InfoPrefix
  }

  /** Prepending the prefix is injective. */
  lemma PrefixCancels(k1: string, k2: string)
    requires InfoPrefix + k1 == InfoPrefix + k2
    ensures k1 == k2
  {
    assert k1 == (InfoPrefix + k1)[|InfoPrefix|..];
    assert k2 == (InfoPrefix + k2)[|InfoPrefix|..];
  }

  /** The custom-info key a header name carries: the name without the prefix. */
  function Strip(name: string): string
    requires IsInfoHeader(name)
  {
    name[|InfoPrefix|..]
  }

  /** Putting the prefix back gives the header name again. */
  lemma TagStrip(name: string)
    requires IsInfoHeader(name)
    ensures InfoPrefix + Strip(name) == name
  {
    assert name == name[..|InfoPrefix|] + name[|InfoPrefix|..];
  }

  /** A prefixed key is an info header name, and stripping it gives the key. */
  lemma StripTag(key: string)
    ensures IsInfoHeader(InfoPrefix + key) && Strip(InfoPrefix + key) == key
  {
    assert (InfoPrefix + key)[..|InfoPrefix|] == InfoPrefix;
  }

  /** The authenticated session (the B2 struct). Nothing in the client
      changes it after the credential exchange. */
  datatype Session = Session(accountId: string, apiUrl: string, authToken: string, downloadUrl: string)

  /** An upload lease: a URL and a token good for uploads into one bucket. */
  datatype Upload = Upload(bucketId: string, uploadUrl: string, authToken: string)

  /** The decoded fields of a bucket. */
  datatype BucketRecord = BucketRecord(accountId: string, id: string, name: string, bucketType: string)

  /** Full metadata of one file version. `conn` is the session it refers back
      to, None where the Go value's conn pointer is nil. */
  datatype FileInfo = FileInfo(
    accountId: string,
    id: string,
    name: string,
    bucketId: string,
    length: int64,
    sha1: string,
    contentType: string,
    info: map<string, string>,
    conn: Option<Session>)

  /** One entry of a listing: one version of a name. */
  datatype FileName = FileName(
    id: string,
    name: string,
    action: string,
    size: int64,
    timestamp: int64,
    conn: Option<Session>)

  /** The body of b2_list_file_names and of b2_list_file_versions. */
  datatype FileNameList = FileNameList(files: seq<FileName>, nextFileName: string)
  datatype FileVersionList = FileVersionList(files: seq<FileName>, nextFileId: string, nextFileName: string)

  /** The routines the client borrows from libraries: encoding/json decoding
      into each shape the client asks for (None is an Unmarshal error), and
      net/url's url.Parse(..).String() and url.QueryUnescape, both fallible. */
  datatype Codec = Codec(
    apiErr: Bytes -> Option<ApiErr>,
    bucket: Bytes -> Option<BucketRecord>,
    buckets: Bytes -> Option<seq<BucketRecord>>,
    upload: Bytes -> Option<Upload>,
    fileInfo: Bytes -> Option<FileInfo>,
    fileName: Bytes -> Option<FileName>,
    fileNames: Bytes -> Option<FileNameList>,
    fileVersions: Bytes -> Option<FileVersionList>,
    encodePath: string -> Option<string>,
    unescape: string -> Option<string>)
}
