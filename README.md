# go-blaze B2 client: a verified model

This project models the core of go-blaze, a Go client for the Backblaze B2
storage service. It covers two layers.

- The session calls of `b2/b2.go`. Each sends at most one HTTP request. The
  calls that return a value read the response through the `readResp` envelope.
  A download reads it there only when the status is not 200. On status 200
  it streams the body into a sink and rebuilds the FileInfo from the response
  headers. A download by name can also fail before anything is sent, when
  url.Parse rejects the file name.
- The objects built on those calls: upload leases (`b2/upload.go`) and bucket
  handles with a lazily cached lease (`b2/bucket.go`). The earlier single-file
  draft `b2.go` is covered for its lease-guarded upload and its two
  downloads. Its `readResp` (`b2.go:84-106`) is the same envelope as that of
  `b2/b2.go`, so the model uses `Envelope.ReadResp` for it.

The network is a `Transport` object. It logs every request it is given and
answers from a script of replies, so "no request is made" is a statement about
the log. A download writes into a `Sink`. JSON decoding, `url.Parse(..).String()`
and `url.QueryUnescape` belong to libraries. They enter the model as fallible
functions in a `Codec` value.

Files and modules:

- `wire.dfy` (`Wire`): bytes, header maps, requests, responses, the transport
  and the sink, and the error kinds.
- `numbers.dfy` (`Numbers`): `strconv.ParseInt(s, 10, 64)` and the decimal form
  `fmt.Sprint` gives an int64.
- `records.dfy` (`Records`): the session, lease, bucket, file-info and
  file-name records, and the `X-Bz-Info-` prefix.
- `envelope.dfy` (`Envelope`): `readResp`, one exchange, and the download
  status gate.
- `lease.dfy` (`Lease`): `Upload.UploadFile`.
- `client.dfy` (`Client`): the session's calls, the list-request bodies,
  `readHeaderFileInfo`, and the loops that point listed entries back at the
  session.
- `buckets.dfy` (`Buckets`): the `Bucket` class and the calls that hand out
  bucket handles.
- `draft.dfy` (`Draft`): `b2.go`.

Go's 64-bit integers are the subset type `int64`. The truncating division of
the modification time is written out (`Lease.Millis`). Go ranges over a map in
no fixed order. The loops over the info map and over the header map therefore
pick an arbitrary remaining key each step. Their contracts hold for every
order.

Some details of the code that the model keeps as they are:

- `ListFileVersions` returns `(files, nextFileId, nextFileName)`, in that order
  (`b2/b2.go:466`).
- The session is the four fields the service returns. `AppKey` is never set,
  and `b2/b2.go` has no cached lease on the session. The lease cache lives on
  each `Bucket`.
- The FileInfo an upload returns refers back to no session (`b2/upload.go:62`).
  The FileInfo values of `GetFileInfo`, `DeleteFileVersion` and the downloads
  do refer back to it.
- `url.QueryUnescape` is left abstract. It also turns `+` into a space, so no
  round trip between the upload's encoded name and the download's decoded name
  is claimed.

## Model

| member | source | states |
|---|---|---|
| Envelope.ReadResp | b2/b2.go:51-75 | a transport error exactly when the body cannot be read; success exactly when the body reads, the status is 200 and the payload decodes, with the decoded payload; an API error exactly when the body reads, the status is not 200 and the error record decodes, with that record; every other outcome is a decode failure, distinct from both |
| Envelope.NonGoodStatusFails | b2/b2.go:67-74 | a status other than 200 never succeeds, whatever the decoders return, and a download then writes nothing |
| Envelope.Exchange | b2/b2.go:171-185 | exactly one request is sent and one reply consumed; the result is readResp of that reply, or a transport error when there is none |
| Envelope.Gate | b2/b2.go:231-246 | a download succeeds exactly with status 200 and an unbroken body, keeping the response; a status other than 200 gives readResp's error; no reply, or a 200 body that breaks while being copied, gives a transport error |
| Envelope.Fetch | b2/b2.go:231-246 | one request sent; the sink receives the body exactly on status 200 and nothing otherwise; the result is the gate's verdict |
| Numbers.ParseFormatRoundTrip | b2/upload.go:48 | every int64 printed in decimal parses back to the same int64 |
| Numbers.ParseIntRangeError | b2/b2.go:83-86 | decimal text for a value outside int64 is rejected |
| Numbers.ParseIntSyntaxError | b2/b2.go:83-86 | text with a character that is neither a digit nor a leading sign is rejected |
| Numbers.ParseIntNeedsDigit | b2/b2.go:83-86 | the empty text and a sign alone are rejected |
| Lease.Millis | b2/upload.go:48 | nanoseconds divided by 1,000,000 truncated toward zero: the bounds of the quotient for both signs |
| Lease.AddInfoHeaders | b2/upload.go:51-55 | the loop appends one header per info entry, in some enumeration of the map's keys that lists each key once |
| Lease.BuildUploadRequest | b2/upload.go:19-55 | fails, with an invalid-name error, exactly when url.Parse rejects the name; otherwise a POST to the lease's upload URL with the file size as content length, the four fixed headers, the mtime header when given and one header per info entry |
| Lease.UploadFile | b2/upload.go:19-69 | a rejected name sends nothing and consumes nothing; otherwise exactly one upload request is sent, and the result is the decoded FileInfo with no session, or readResp's error |
| Lease.UploadRequestHeaders | b2/upload.go:28-44 | Authorization carries the lease's token; the encoded name is sent; an empty content type becomes b2/x-auto and any other passes unchanged; the sha1 is the caller's, verbatim |
| Lease.MtimeHeaderPresence | b2/upload.go:47-55 | with no info entry of the reserved key, the mtime header is present exactly when a time is given, and then it is the fifth header added, with the truncated milliseconds as value |
| Lease.MtimeHeaderFifth | b2/upload.go:40-49 | for every info map, a given time puts the mtime header, with the truncated milliseconds as value, as the fifth header added |
| Lease.MtimeHeaderReadsBack | b2/upload.go:47-49 | the mtime header's value is decimal text that reads back as the truncated milliseconds |
| Lease.InfoHeadersExactlyOnce | b2/upload.go:51-55 | each info entry (k, v) yields a header X-Bz-Info-k with value v, exactly one header carries that name, and every info header comes from an entry; header names are taken as canonical, so this holds of the wire only for keys whose X-Bz-Info-k is already in canonical form |
| Lease.NoInfoNoHeaders | b2/upload.go:51 | a nil or empty info map adds no header |
| Client.ListFileNamesBody | b2/b2.go:384-392 | bucketId always present; startFileName present exactly when non-empty and maxFileCount exactly when non-zero, with the caller's values; no other field |
| Client.ListFileVersionsBody | b2/b2.go:426-436 | bucketId always present; startFileName, startFileId and maxFileCount each present exactly when non-empty or non-zero, independently of one another, with the caller's values; no other field |
| Client.ListBodiesReadBack | b2/b2.go:384-436 | reading absent fields as their defaults recovers every argument of both list bodies |
| Client.InfoOfEntries | b2/b2.go:93-100 | every X-Bz-Info- header gives Info[name without prefix] its first value, and every Info entry comes from such a header, so headers without the prefix add nothing |
| Client.HeaderFileInfo | b2/b2.go:77-103 | succeeds exactly when Content-Length is a base-10 int64 and X-Bz-File-Name unescapes, and fails with a decode error otherwise; on success the account is the session's, type, ID and sha1 are the headers', length and name are the parsed values, the bucket ID is empty, Info is the stripped info headers and the file refers back to the session |
| Client.FoldInfoHeaders | b2/b2.go:93-100 | the loop over the header map, from an allocated map, adds exactly the stripped info headers; from a nil map it panics exactly when an info header is present |
| Client.ReadHeaderFileInfo | b2/b2.go:77-103 | with Info allocated before the loop, the result is the FileInfo the headers describe |
| Client.ReadHeaderFileInfoAsWritten | b2/b2.go:79-100 | as written, with Info left nil: parse errors are returned as they are, and a successful parse panics exactly when an info header is present |
| Client.NoInfoHeaderNoInfo | b2/b2.go:93-100 | without X-Bz-Info- headers the Info map is empty |
| Client.AuthoredHeaderParses | b2/b2.go:79-99 | a header map with Content-Length "5" and X-Bz-Info-author "ann" parses, has an info header, and yields Info {author: ann} once Info is allocated; with ReadHeaderFileInfoAsWritten's contract, the code as written panics on it |
| Client.ContentLengthReadsBack | b2/b2.go:83-86 | a Content-Length written as the decimal form of an int64 becomes the file's length |
| Client.InfoSurvivesHeaders | b2/b2.go:93-100 | the headers one X-Bz-Info-key per entry of an info map parse back to the same Info map; header names are taken as canonical, so this is the upload's round trip only for keys whose X-Bz-Info-key is already in canonical form |
| Client.AttachSession | b2/b2.go:417-419 | the loop keeps every listed entry, in order and with its fields, and makes each refer back to the session |
| Client.CreateBucket | b2/b2.go:128-154 | one GET with accountId, bucketName and bucketType as query parameters and the session token; the result is the decoded bucket or readResp's error |
| Client.DeleteBucket | b2/b2.go:157-186 | one POST of {accountId, bucketId}; the result is the decoded bucket or readResp's error |
| Client.GetUploadUrl | b2/b2.go:189-216 | one POST of {bucketId}; the result is the decoded lease or readResp's error |
| Client.UpdateBucket | b2/b2.go:284-313 | one POST of {accountId, bucketId, bucketType}; the result is the decoded bucket or readResp's error |
| Client.DeleteFileVersion | b2/b2.go:316-344 | one POST of {fileName, fileId}; the decoded FileInfo refers back to the session |
| Client.ListBucketRecords | b2/b2.go:347-373 | one POST of {accountId}; the result is the decoded bucket list or readResp's error |
| Client.ListFileNames | b2/b2.go:383-422 | one POST of the list body; on success the files, each referring back to the session, and the next file name |
| Client.ListFileVersions | b2/b2.go:425-467 | one POST of the list body; on success the files, each referring back to the session, then the next file ID, then the next file name |
| Client.GetFileInfo | b2/b2.go:470-496 | one POST of {fileId}; the decoded FileInfo refers back to the session |
| Client.HideFile | b2/b2.go:499-526 | one POST of {bucketId, fileName}; the decoded FileName refers back to the session |
| Client.DownloadFileById | b2/b2.go:219-248 | one GET of the download URL with fileId as query; the sink receives the body exactly on status 200; the result is the gate's error or the FileInfo the headers describe, read with the corrected parse, in which Info starts empty |
| Client.DownloadFileByName | b2/b2.go:251-281 | a name url.Parse rejects fails before any request and writes nothing; otherwise one GET of downloadUrl/file/bucket/name, then as by ID; the headers are read with the corrected parse, in which Info starts empty |
| Client.FailedDownloadParsesNothing | b2/b2.go:236-238 | a download with a status other than 200 fails with readResp's error, never with a header-parse error, and writes nothing |
| Buckets.Bucket.constructor | b2/b2.go:147 | a new handle holds the decoded fields and the session, with no lease |
| Buckets.Bucket.Delete | b2/bucket.go:19-22 | sends the delete request for this bucket's ID and returns only its error |
| Buckets.Bucket.Update | b2/bucket.go:25-37 | sends the update for this bucket's ID and the new type; on success all four fields become the response's, on failure none changes; the lease is untouched |
| Buckets.Bucket.ListFileNames | b2/bucket.go:40-42 | forwards this bucket's ID and the caller's cursor and count unchanged |
| Buckets.Bucket.ListFileVersions | b2/bucket.go:45-47 | forwards this bucket's ID and the caller's cursors and count unchanged |
| Buckets.Bucket.HideFile | b2/bucket.go:50-52 | forwards this bucket's ID and the caller's file name unchanged |
| Buckets.Bucket.UploadFile | b2/bucket.go:55-65 | with a cached lease, no lease request, an upload with that lease, and the cache unchanged whatever the upload's outcome; without, a lease request for this bucket's own ID first: on failure its error, no upload and the cache still empty; on success the lease is cached and the upload uses it |
| Buckets.CreateBucket | b2/b2.go:128-154 | on success a new handle with the decoded fields, referring back to the session, with no lease |
| Buckets.DeleteBucket | b2/b2.go:157-186 | on success a new handle with the decoded fields, referring back to the session |
| Buckets.UpdateBucket | b2/b2.go:284-313 | on success a new handle with the decoded fields, referring back to the session |
| Buckets.ListBuckets | b2/b2.go:347-380 | on success one new, distinct handle per listed bucket, in order, each with its decoded fields and referring back to the session |
| Draft.UploadFile | b2.go:222-271 | without a stored lease, fails with a configuration error before any request; with one, sends the same upload request as Upload.UploadFile on that lease |
| Draft.RawHeaders | b2.go:286-302 | a draft download succeeds exactly on status 200 with a readable body, and then returns the response headers unchanged; on another status, readResp's error; no reply, or a 200 body that breaks while being copied, gives a transport error |
| Draft.DownloadFileById | b2.go:274-303 | one GET by file ID; the sink receives the body exactly on status 200; the result is the raw headers or the gate's error |
| Draft.DownloadFileByName | b2.go:306-336 | a rejected name fails before any request; otherwise one GET by name, then as by ID |

## Left out

- NewB2: the credential exchange is one request with basic authentication and a decode, so nothing in it goes beyond `Envelope.Exchange`.
- The draft's other calls (`b2.go` CreateBucket through HideFile): they repeat the calls of `b2/b2.go` without the back-references.
- The one-line methods of `b2/fileinfo.go` and `b2/filename.go`: they forward to the session calls. Their record types are modelled.
- `Err.Error()`: Sprintf formatting from a library.
- JSON marshalling and unmarshalling: abstract fallible functions. The field order of a request body is not modelled.
- `url.Parse(..).String()` and `url.QueryUnescape`: abstract fallible functions.
- http.NewRequest failures: not modelled. NewRequest runs url.Parse on the whole URL, so it can fail. One case is a download by name whose raw bucket name holds a bad escape such as `a%zz` (b2/b2.go:257, b2.go:312). Another is an upload URL from the service that does not parse. In both cases the code returns an error before sending anything. Client.DownloadFileByName, Draft.DownloadFileByName and Lease.UploadFile instead send the request.
- Header canonicalisation by net/http: header names are taken as already canonical. `Get` returns the first value or "". Go's `Header.Add` and the response parser turn `X-Bz-Info-author` into `X-Bz-Info-Author`, so an upload of `{author: ann}` reads back as `{Author: ann}`, and keys such as `a` and `A` share one header with two values.
- Lease.InfoHeadersExactlyOnce: holds of the headers on the wire only for keys whose `X-Bz-Info-<key>` is already canonical, because canonicalisation is not modelled.
- Client.InfoSurvivesHeaders: is the upload-download round trip only for keys whose `X-Bz-Info-<key>` is already canonical, because canonicalisation is not modelled.
- Client.DownloadFileById, Client.DownloadFileByName: read the response headers with the corrected parse (Client.ReadHeaderFileInfo), where the code calls the parser that panics on the first info header (see Findings).
- `time.Time`: the modification time is its `UnixNano` value.
- Concurrency: the race on the bucket's lease cache under concurrent first use is not modelled. The model is single-threaded.
- Sink.CopyFrom: a body that breaks part-way is modelled as writing its whole readable part. How much io.Copy writes before the error is not modelled.
- Lease.MtimeHeaderPresence: an info entry under the reserved key `src_last_modified_millis` would add a second header of the same name. The "exactly when" direction is stated only for info maps without that key.

## Findings

| source | as written | input that shows it | evidently intended | confidence | as-written member | corrected member |
|---|---|---|---|---|---|---|
| b2/b2.go:79 | `&FileInfo{conn: b}` leaves `Info` as a nil map, and the loop writes into it at b2/b2.go:99, which panics in Go | a 200 download whose headers are Content-Length "5" and X-Bz-Info-author "ann" | `Info` starts as an empty map, so the result has Info {author: ann} | not executed | Client.ReadHeaderFileInfoAsWritten, Client.AuthoredHeaderParses | Client.ReadHeaderFileInfo |
