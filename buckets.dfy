/** Bucket handles (b2/bucket.go): a bucket's fields, the session it was
    obtained through, and a lazily acquired upload lease that is cached for
    later uploads. Also the session calls of b2/b2.go that hand out handles. */
module Buckets {
  import opened Wire
  import opened Records
  import Envelope
  import Lease
  import Client

  /** The error a Go call returns when its value is discarded. */
  function ErrorOf<T>(r: Result<T>): Option<ClientError>
  {
    match r
    case Ok(_) => None
    case Fail(err) => Some(err)
  }

  class Bucket {
    var accountId: string
    var id: string
    var name: string
    var bucketType: string
    /** The session the handle was obtained through; never reassigned. */
    const conn: Session
    /** The cached upload lease; None until the first upload acquires one. */
    var upload: Option<Upload>

    /** A handle for a decoded bucket record, with no lease yet. */
    constructor (rec: BucketRecord, b: Session)
      ensures Record() == rec && conn == b && upload == None
    {
      accountId := rec.accountId;
      id := rec.id;
      name := rec.name;
      bucketType := rec.bucketType;
      conn := b;
      upload := None;
    }

    /** The four exported fields. */
    function Record(): BucketRecord
      reads this
    {
      BucketRecord(accountId, id, name, bucketType)
    }

    /** Delete: b2_delete_bucket for this bucket's ID; the handle is kept as is. */
    method Delete(t: Transport, lib: Codec) returns (err: Option<ClientError>)
      modifies t
      ensures t.sent == old(t.sent) + [Client.DeleteBucketRequest(conn, id)]
      ensures t.replies == Remaining(old(t.replies))
      ensures err == ErrorOf(Envelope.Interpret(NextResponse(old(t.replies)), lib.bucket, lib.apiErr))
    {
      var rec := Client.DeleteBucket(conn, id, t, lib);
      err := ErrorOf(rec);
    }

    /** Update: on success all four fields take the response's values; on
        failure none changes. The lease is never touched. */
    method Update(newType: string, t: Transport, lib: Codec) returns (err: Option<ClientError>)
      modifies this`accountId, this`id, this`name, this`bucketType, t
      ensures t.sent == old(t.sent) + [Client.UpdateBucketRequest(conn, old(id), newType)]
      ensures t.replies == Remaining(old(t.replies))
      ensures var rec := Envelope.Interpret(NextResponse(old(t.replies)), lib.bucket, lib.apiErr);
              && err == ErrorOf(rec)
              && (rec.Ok? ==> Record() == rec.value)
              && (rec.Fail? ==> Record() == old(Record()))
      ensures upload == old(upload)
    {
      var rec := Client.UpdateBucket(conn, id, newType, t, lib);
      if rec.Fail? {
        return Some(rec.error);
      }
      accountId := rec.value.accountId;
      id := rec.value.id;
      name := rec.value.name;
      bucketType := rec.value.bucketType;
      err := None;
    }

    /** ListFileNames with this bucket's ID. */
    method ListFileNames(startFileName: string, maxFileCount: int, t: Transport, lib: Codec)
      returns (r: Result<(seq<FileName>, string)>)
      modifies t
      ensures t.sent == old(t.sent) + [Client.ListFileNamesRequest(conn, id, startFileName, maxFileCount)]
      ensures t.replies == Remaining(old(t.replies))
      ensures Client.ListedNames(NextResponse(old(t.replies)), lib, conn, r)
    {
      r := Client.ListFileNames(conn, id, startFileName, maxFileCount, t, lib);
    }

    /** ListFileVersions with this bucket's ID. */
    method ListFileVersions(startFileName: string, startFileId: string, maxFileCount: int, t: Transport, lib: Codec)
      returns (r: Result<(seq<FileName>, string, string)>)
      modifies t
      ensures t.sent == old(t.sent) + [Client.ListFileVersionsRequest(conn, id, startFileName, startFileId, maxFileCount)]
      ensures t.replies == Remaining(old(t.replies))
      ensures Client.ListedVersions(NextResponse(old(t.replies)), lib, conn, r)
    {
      r := Client.ListFileVersions(conn, id, startFileName, startFileId, maxFileCount, t, lib);
    }

    /** HideFile with this bucket's ID. */
    method HideFile(fileName: string, t: Transport, lib: Codec) returns (r: Result<FileName>)
      modifies t
      ensures t.sent == old(t.sent) + [Client.HideFileRequest(conn, id, fileName)]
      ensures t.replies == Remaining(old(t.replies))
      ensures r == Client.NameWithConn(Envelope.Interpret(NextResponse(old(t.replies)), lib.fileName, lib.apiErr), conn)
    {
      r := Client.HideFile(conn, id, fileName, t, lib);
    }

    /** UploadFile: with a cached lease, upload with it and request no new
        one; without, request a lease for this bucket's ID first, cache it,
        and upload with it. A failed acquisition returns its error, uploads
        nothing and leaves the cache empty; a failed upload keeps the lease. */
    method UploadFile(t: Transport, lib: Codec, a: Lease.UploadArgs) returns (r: Result<FileInfo>)
      modifies this`upload, t
      ensures old(upload).Some? ==>
                && upload == old(upload)
                && Lease.UploadStep(old(upload).value, a, lib, old(t.sent), old(t.replies), t.sent, t.replies, r)
      ensures old(upload).None? ==>
                var ask := Client.GetUploadUrlRequest(conn, id);
                var lease := Envelope.Interpret(NextResponse(old(t.replies)), lib.upload, lib.apiErr);
                && (lease.Fail? ==>
                      && r == Fail(lease.error) && upload == None
                      && t.sent == old(t.sent) + [ask] && t.replies == Remaining(old(t.replies)))
                && (lease.Ok? ==>
                      && upload == Some(lease.value)
                      && Lease.UploadStep(lease.value, a, lib, old(t.sent) + [ask], Remaining(old(t.replies)),
                                          t.sent, t.replies, r))
    {
      if upload.None? {
        var lease := Client.GetUploadUrl(conn, id, t, lib);
        if lease.Fail? {
          upload := None;
          return Fail(lease.error);
        }
        upload := Some(lease.value);
      }
      r := Lease.UploadFile(upload.value, t, lib, a);
    }
  }

  /** A handle for a decoded record, or the call's error. */
  method Handle(rec: Result<BucketRecord>, b: Session) returns (r: Result<Bucket>)
    ensures rec.Fail? ==> r == Fail(rec.error)
    ensures rec.Ok? ==> r.Ok? && fresh(r.value) && r.value.Record() == rec.value && r.value.conn == b
                        && r.value.upload == None
  {
    if rec.Fail? {
      return Fail(rec.error);
    }
    var h := new Bucket(rec.value, b);
    r := Ok(h);
  }

  /** B2.CreateBucket: the new bucket's handle refers back to the session. */
  method CreateBucket(b: Session, bucketName: string, bucketType: string, t: Transport, lib: Codec)
    returns (r: Result<Bucket>)
    modifies t
    ensures t.sent == old(t.sent) + [Client.CreateBucketRequest(b, bucketName, bucketType)]
    ensures t.replies == Remaining(old(t.replies))
    ensures var rec := Envelope.Interpret(NextResponse(old(t.replies)), lib.bucket, lib.apiErr);
            && (rec.Fail? ==> r == Fail(rec.error))
            && (rec.Ok? ==> r.Ok? && fresh(r.value) && r.value.Record() == rec.value && r.value.conn == b
                            && r.value.upload == None)
  {
    var rec := Client.CreateBucket(b, bucketName, bucketType, t, lib);
    r := Handle(rec, b);
  }

  /** B2.DeleteBucket: the deleted bucket's last state, as a handle. */
  method DeleteBucket(b: Session, bucketId: string, t: Transport, lib: Codec) returns (r: Result<Bucket>)
    modifies t
    ensures t.sent == old(t.sent) + [Client.DeleteBucketRequest(b, bucketId)]
    ensures t.replies == Remaining(old(t.replies))
    ensures var rec := Envelope.Interpret(NextResponse(old(t.replies)), lib.bucket, lib.apiErr);
            && (rec.Fail? ==> r == Fail(rec.error))
            && (rec.Ok? ==> r.Ok? && fresh(r.value) && r.value.Record() == rec.value && r.value.conn == b
                            && r.value.upload == None)
  {
    var rec := Client.DeleteBucket(b, bucketId, t, lib);
    r := Handle(rec, b);
  }

  /** B2.UpdateBucket: the updated bucket, as a new handle. */
  method UpdateBucket(b: Session, bucketId: string, bucketType: string, t: Transport, lib: Codec)
    returns (r: Result<Bucket>)
    modifies t
    ensures t.sent == old(t.sent) + [Client.UpdateBucketRequest(b, bucketId, bucketType)]
    ensures t.replies == Remaining(old(t.replies))
    ensures var rec := Envelope.Interpret(NextResponse(old(t.replies)), lib.bucket, lib.apiErr);
            && (rec.Fail? ==> r == Fail(rec.error))
            && (rec.Ok? ==> r.Ok? && fresh(r.value) && r.value.Record() == rec.value && r.value.conn == b
                            && r.value.upload == None)
  {
    var rec := Client.UpdateBucket(b, bucketId, bucketType, t, lib);
    r := Handle(rec, b);
  }

  /** B2.ListBuckets: one handle per listed bucket, in the listed order,
      each referring back to the session. */
  method ListBuckets(b: Session, t: Transport, lib: Codec) returns (r: Result<seq<Bucket>>)
    modifies t
    ensures t.sent == old(t.sent) + [Client.ListBucketsRequest(b)]
    ensures t.replies == Remaining(old(t.replies))
    ensures var recs := Envelope.Interpret(NextResponse(old(t.replies)), lib.buckets, lib.apiErr);
            && (recs.Fail? ==> r == Fail(recs.error))
            && (recs.Ok? ==>
                  && r.Ok? && |r.value| == |recs.value|
                  && (forall i :: 0 <= i < |r.value| ==>
                        fresh(r.value[i]) && r.value[i].Record() == recs.value[i] && r.value[i].conn == b
                        && r.value[i].upload == None)
                  && (forall i, j :: 0 <= i < j < |r.value| ==> r.value[i] != r.value[j]))
  {
    var recs := Client.ListBucketRecords(b, t, lib);
    if recs.Fail? {
      return Fail(recs.error);
    }
    var handles: seq<Bucket> := [];
    var i := 0;
    while i < |recs.value|
      invariant 0 <= i <= |recs.value| && |handles| == i
      invariant forall j :: 0 <= j < i ==>
                  fresh(handles[j]) && handles[j].Record() == recs.value[j] && handles[j].conn == b
                  && handles[j].upload == None
      invariant forall j, k :: 0 <= j < k < i ==> handles[j] != handles[k]
      invariant t.sent == old(t.sent) + [Client.ListBucketsRequest(b)]
      invariant t.replies == Remaining(old(t.replies))
    {
      var h := new Bucket(recs.value[i], b);
      handles := handles + [h];
      i := i + 1;
    }
    r := Ok(handles);
  }
}
