/**
 * Storage.Copy and Storage.CopyWithContext of lib/s3/storage.go: copy an
 * object inside S3, in one CopyObject request when it is at most
 * MaxUploadSizeBytes long, otherwise as a multipart upload whose parts are
 * byte ranges of the source copied one after another with UploadPartCopy.
 *
 * The S3 service is a collaborator: S3Api gives, for every request the copy
 * can send, the answer S3 returns (a value or an error). A single Copy never
 * sends the same request twice, so answering by request loses nothing. Each
 * Copy also returns `calls`, the requests it sent in order, which is what a
 * spy on the client would record.
 */
module S3Storage {
  import opened Wrappers
  import opened Options
  import opened S3Parts

  datatype AwsError = AwsError(code: string)

  /** One entry of a CompletedMultipartUpload: the ETag S3 returned for a part, and the part's number. */
  datatype CompletedPart = CompletedPart(eTag: string, partNumber: int)

  datatype Request =
    | HeadObject(bucket: string, key: string)
    | CopyObject(bucket: string, copySource: string, key: string)
    | CreateMultipartUpload(bucket: string, key: string)
    | UploadPartCopy(bucket: string, copySource: string, copySourceRange: ByteRange, key: string,
                     partNumber: int, uploadId: string)
    | CompleteMultipartUpload(bucket: string, key: string, uploadId: string, parts: seq<CompletedPart>)

  /**
   * The answers of S3: HeadObject gives the ContentLength, CreateMultipartUpload
   * the UploadId, UploadPartCopy the part's ETag; CopyObject and
   * CompleteMultipartUpload only succeed or fail.
   */
  datatype S3Api = S3Api(
    headObject: Request -> Result<int, AwsError>,
    copyObject: Request -> Option<AwsError>,
    createMultipartUpload: Request -> Result<string, AwsError>,
    uploadPartCopy: Request -> Result<string, AwsError>,
    completeMultipartUpload: Request -> Option<AwsError>)

  /** fmt.Sprintf("%s/%s", bucket, key), the CopySource of a request. */
  function CopySource(bucket: string, key: string): string
  {
    bucket + "/" + key
  }

  /** What every part copy of one multipart session shares. */
  datatype PartJob = PartJob(bucket: string, src: string, dst: string, uploadId: string, length: int)
  {
    /** The request for part `i` (0-based): part number i + 1, range PartRange(i, length). */
    function PartRequest(i: nat): Request
    {
      UploadPartCopy(bucket, CopySource(bucket, src), PartRange(i, length), dst, i + 1, uploadId)
    }

    /** The requests for the first `n` parts, in order. */
    function PartRequests(n: nat): (rs: seq<Request>)
      ensures |rs| == n
      ensures forall i :: 0 <= i < n ==> rs[i] == PartRequest(i)
    {
      if n == 0 then [] else PartRequests(n - 1) + [PartRequest(n - 1)]
    }
  }

  predicate PartOk(s3: S3Api, job: PartJob, i: nat)
  {
    s3.uploadPartCopy(job.PartRequest(i)).Ok?
  }

  /** The ETag S3 returned for part `i`. */
  function PartETag(s3: S3Api, job: PartJob, i: nat): string
    requires PartOk(s3, job, i)
  {
    s3.uploadPartCopy(job.PartRequest(i)).value
  }

  /** The completion record of the first `n` parts, all of which succeeded. */
  function CompletedParts(s3: S3Api, job: PartJob, n: nat): (parts: seq<CompletedPart>)
    requires forall i :: 0 <= i < n ==> PartOk(s3, job, i)
    ensures |parts| == n
    ensures forall i :: 0 <= i < n ==>
      parts[i] == CompletedPart(PartETag(s3, job, i), i + 1)
  {
    if n == 0 then []
    else CompletedParts(s3, job, n - 1) + [CompletedPart(PartETag(s3, job, n - 1), n)]
  }

  /** One more successful part extends the completion record by its ETag and number. */
  lemma CompletedPartsStep(s3: S3Api, job: PartJob, n: nat)
    requires forall i :: 0 <= i < n + 1 ==> PartOk(s3, job, i)
    ensures CompletedParts(s3, job, n + 1) == CompletedParts(s3, job, n) + [CompletedPart(PartETag(s3, job, n), n + 1)]
  {
  }

  /** The first of the first `n` parts to fail, or `n` when none of them fails. */
  function FirstFailure(s3: S3Api, job: PartJob, n: nat): (f: nat)
    ensures f <= n
    ensures forall i :: 0 <= i < f ==> PartOk(s3, job, i)
    ensures f < n ==> !PartOk(s3, job, f)
  {
    if n == 0 then 0
    else
      var f := FirstFailure(s3, job, n - 1);
      if f < n - 1 then f else if PartOk(s3, job, n - 1) then n else n - 1
  }

  /** The first failure is the part after a run of successes that fails. */
  lemma FirstFailureIs(s3: S3Api, job: PartJob, n: nat, p: nat)
    requires p <= n
    requires forall i :: 0 <= i < p ==> PartOk(s3, job, i)
    requires p < n ==> !PartOk(s3, job, p)
    ensures FirstFailure(s3, job, n) == p
  {
  }

  predicate AllPartsOk(s3: S3Api, job: PartJob)
  {
    FirstFailure(s3, job, PartCount(job.length)) == PartCount(job.length)
  }

  /** No part fails exactly when every part copy succeeds. */
  lemma AllPartsOkIff(s3: S3Api, job: PartJob)
    ensures AllPartsOk(s3, job) <==> forall i :: 0 <= i < PartCount(job.length) ==> PartOk(s3, job, i)
  {
    var n := PartCount(job.length);
    if forall i :: 0 <= i < n ==> PartOk(s3, job, i) {
      FirstFailureIs(s3, job, n, n);
    }
  }

  function CompleteRequest(s3: S3Api, job: PartJob): Request
    requires AllPartsOk(s3, job)
  {
    CompleteMultipartUpload(job.bucket, job.dst, job.uploadId, CompletedParts(s3, job, PartCount(job.length)))
  }

  /**
   * The calls and the error of the part loop and the completion of an open
   * session: every part is copied in order and then the upload is completed,
   * unless a part fails, in which case nothing after it is sent and its error
   * is returned.
   */
  ghost predicate PartsRun(s3: S3Api, job: PartJob, calls: seq<Request>, err: Option<AwsError>)
  {
    var f := FirstFailure(s3, job, PartCount(job.length));
    if f == PartCount(job.length) then
      var complete := CompleteRequest(s3, job);
      calls == job.PartRequests(f) + [complete] && err == s3.completeMultipartUpload(complete)
    else
      calls == job.PartRequests(f + 1) && err == Some(s3.uploadPartCopy(job.PartRequest(f)).error)
  }

  /**
   * The calls and the error of one Copy whose options selected `bucket`, by a
   * Storage whose own bucket is `home`.
   */
  ghost predicate CopyRun(s3: S3Api, home: string, bucket: string, src: string, dst: string,
                          calls: seq<Request>, err: Option<AwsError>)
  {
    var head := HeadObject(bucket, src);
    |calls| >= 1 && calls[0] == head &&
    match s3.headObject(head)
    case Err(e) => calls == [head] && err == Some(e)
    case Ok(length) =>
      if length <= MaxUploadSizeBytes then
        var copy := CopyObject(bucket, CopySource(home, src), dst);
        calls == [head, copy] && err == s3.copyObject(copy)
      else
        var create := CreateMultipartUpload(bucket, dst);
        |calls| >= 2 && calls[1] == create &&
        match s3.createMultipartUpload(create)
        case Err(e) => calls == [head, create] && err == Some(e)
        case Ok(id) => PartsRun(s3, PartJob(bucket, src, dst, id, length), calls[2..], err)
  }

  /** The run of a session whose part `f` is the first to fail. */
  lemma PartsRunOnFailure(s3: S3Api, job: PartJob, f: nat)
    requires f < PartCount(job.length) && !PartOk(s3, job, f)
    requires forall i :: 0 <= i < f ==> PartOk(s3, job, i)
    ensures PartsRun(s3, job, job.PartRequests(f + 1), Some(s3.uploadPartCopy(job.PartRequest(f)).error))
  {
    FirstFailureIs(s3, job, PartCount(job.length), f);
  }

  /** The run of a session whose parts all succeed. */
  lemma PartsRunOnSuccess(s3: S3Api, job: PartJob)
    requires forall i :: 0 <= i < PartCount(job.length) ==> PartOk(s3, job, i)
    ensures AllPartsOk(s3, job)
    ensures PartsRun(s3, job, job.PartRequests(PartCount(job.length)) + [CompleteRequest(s3, job)],
                     s3.completeMultipartUpload(CompleteRequest(s3, job)))
  {
    FirstFailureIs(s3, job, PartCount(job.length), PartCount(job.length));
  }

  /** The number of UploadPartCopy requests among `calls`. */
  function PartCopies(calls: seq<Request>): nat
    decreases |calls|
  {
    if calls == [] then 0
    else PartCopies(calls[..|calls| - 1]) + (if calls[|calls| - 1].UploadPartCopy? then 1 else 0)
  }

  lemma {:induction false} PartCopiesAppend(a: seq<Request>, b: seq<Request>)
    ensures PartCopies(a + b) == PartCopies(a) + PartCopies(b)
    decreases |b|
  {
    if b == [] {
      assert a + b == a;
    } else {
      var b' := b[..|b| - 1];
      PartCopiesAppend(a, b');
      assert (a + b)[..|a + b| - 1] == a + b';
    }
  }

  /** A sequence without UploadPartCopy requests counts none. */
  lemma {:induction false} PartCopiesNone(calls: seq<Request>)
    requires forall j :: 0 <= j < |calls| ==> !calls[j].UploadPartCopy?
    ensures PartCopies(calls) == 0
    decreases |calls|
  {
    if calls != [] {
      PartCopiesNone(calls[..|calls| - 1]);
    }
  }

  lemma {:induction false} PartCopiesOfPartRequests(job: PartJob, n: nat)
    ensures PartCopies(job.PartRequests(n)) == n
  {
    if n > 0 {
      PartCopiesOfPartRequests(job, n - 1);
      assert job.PartRequests(n)[..n - 1] == job.PartRequests(n - 1);
    }
  }

  /** A CompleteMultipartUpload request is among `calls`. */
  predicate Completes(calls: seq<Request>)
  {
    exists j :: 0 <= j < |calls| && calls[j].CompleteMultipartUpload?
  }

  /** No request of a multipart upload is among `calls`. */
  predicate NoMultipart(calls: seq<Request>)
  {
    forall j :: 0 <= j < |calls| ==>
      !calls[j].CreateMultipartUpload? && !calls[j].UploadPartCopy? && !calls[j].CompleteMultipartUpload?
  }

  /** A failed probe returns its error before any copy request is sent. */
  lemma ProbeFailureStopsCopy(s3: S3Api, home: string, bucket: string, src: string, dst: string,
                              calls: seq<Request>, err: Option<AwsError>, e: AwsError)
    requires CopyRun(s3, home, bucket, src, dst, calls, err)
    requires s3.headObject(HeadObject(bucket, src)) == Err(e)
    ensures err == Some(e) && calls == [HeadObject(bucket, src)]
  {
  }

  /**
   * An object of at most MaxUploadSizeBytes (the bound included) is copied by
   * exactly one CopyObject, into the selected bucket but from the Storage's
   * own bucket; no multipart request is sent and the CopyObject error is the result.
   */
  lemma SmallObjectIsCopiedDirectly(s3: S3Api, home: string, bucket: string, src: string, dst: string,
                                    calls: seq<Request>, err: Option<AwsError>, length: int)
    requires CopyRun(s3, home, bucket, src, dst, calls, err)
    requires s3.headObject(HeadObject(bucket, src)) == Ok(length) && length <= MaxUploadSizeBytes
    ensures |calls| == 2 && calls[1] == CopyObject(bucket, home + "/" + src, dst)
    ensures NoMultipart(calls) && PartCopies(calls) == 0
    ensures err == s3.copyObject(calls[1])
  {
    PartCopiesNone(calls);
  }

  /** A failed CreateMultipartUpload returns its error before any part copy. */
  lemma CreateFailureStopsCopy(s3: S3Api, home: string, bucket: string, src: string, dst: string,
                               calls: seq<Request>, err: Option<AwsError>, length: int, e: AwsError)
    requires CopyRun(s3, home, bucket, src, dst, calls, err)
    requires s3.headObject(HeadObject(bucket, src)) == Ok(length) && length > MaxUploadSizeBytes
    requires s3.createMultipartUpload(CreateMultipartUpload(bucket, dst)) == Err(e)
    ensures calls == [HeadObject(bucket, src), CreateMultipartUpload(bucket, dst)] && err == Some(e)
    ensures PartCopies(calls) == 0 && !Completes(calls)
  {
    PartCopiesNone(calls);
  }

  /** The calls of a multipart copy: probe, create, then the part loop and completion of the session. */
  lemma MultipartCalls(s3: S3Api, home: string, bucket: string, src: string, dst: string,
                       calls: seq<Request>, err: Option<AwsError>, length: int, id: string)
    requires CopyRun(s3, home, bucket, src, dst, calls, err)
    requires s3.headObject(HeadObject(bucket, src)) == Ok(length) && length > MaxUploadSizeBytes
    requires s3.createMultipartUpload(CreateMultipartUpload(bucket, dst)) == Ok(id)
    ensures calls == [HeadObject(bucket, src), CreateMultipartUpload(bucket, dst)] + calls[2..]
    ensures PartsRun(s3, PartJob(bucket, src, dst, id, length), calls[2..], err)
    ensures PartCopies(calls) == PartCopies(calls[2..])
    ensures Completes(calls) <==> Completes(calls[2..])
  {
    var head, create := HeadObject(bucket, src), CreateMultipartUpload(bucket, dst);
    assert calls == [head, create] + calls[2..];
    AfterSetupCalls(head, create, calls[2..]);
  }

  /** Two setup requests before a session change neither its part copies nor whether it completes. */
  lemma AfterSetupCalls(head: Request, create: Request, session: seq<Request>)
    requires head.HeadObject? && create.CreateMultipartUpload?
    ensures PartCopies([head, create] + session) == PartCopies(session)
    ensures Completes([head, create] + session) <==> Completes(session)
  {
    var calls := [head, create] + session;
    PartCopiesAppend([head, create], session);
    PartCopiesNone([head, create]);
    if Completes(calls) {
      var j :| 0 <= j < |calls| && calls[j].CompleteMultipartUpload?;
      assert session[j - 2] == calls[j];
    }
    if Completes(session) {
      var j :| 0 <= j < |session| && session[j].CompleteMultipartUpload?;
      assert calls[j + 2] == session[j];
    }
  }

  /**
   * Of a session's calls, the k-th is the request for part k (part number
   * k + 1, range PartRange(k, length)) whenever it is an UploadPartCopy, and
   * there are at most PartCount(length) of them.
   */
  lemma PartRequestsInOrder(s3: S3Api, job: PartJob, calls: seq<Request>, err: Option<AwsError>)
    requires PartsRun(s3, job, calls, err)
    ensures forall k :: 0 <= k < |calls| && calls[k].UploadPartCopy? ==> calls[k] == job.PartRequest(k)
    ensures PartCopies(calls) <= PartCount(job.length)
  {
    var n := PartCount(job.length);
    var f := FirstFailure(s3, job, n);
    if f == n {
      var complete := CompleteRequest(s3, job);
      PartRequestsThenOther(job, n, complete);
    } else {
      PartCopiesOfPartRequests(job, f + 1);
    }
  }

  /** The part requests for the first `n` parts followed by a request that is not a part copy. */
  lemma PartRequestsThenOther(job: PartJob, n: nat, last: Request)
    requires !last.UploadPartCopy?
    ensures PartCopies(job.PartRequests(n) + [last]) == n
    ensures forall k :: 0 <= k < n + 1 && (job.PartRequests(n) + [last])[k].UploadPartCopy? ==>
      (job.PartRequests(n) + [last])[k] == job.PartRequest(k)
  {
    var calls := job.PartRequests(n) + [last];
    assert calls[..n] == job.PartRequests(n);
    PartCopiesOfPartRequests(job, n);
  }

  /** The part list numbers the parts 1, 2, ... without gaps, so its part numbers strictly ascend from 1. */
  lemma CompletedPartsAscend(s3: S3Api, job: PartJob, n: nat)
    requires n > 0 && forall i :: 0 <= i < n ==> PartOk(s3, job, i)
    ensures CompletedParts(s3, job, n)[0].partNumber == 1
    ensures CompletedParts(s3, job, n)[n - 1].partNumber == n
    ensures forall i, j :: 0 <= i < j < n ==>
      CompletedParts(s3, job, n)[i].partNumber < CompletedParts(s3, job, n)[j].partNumber
  {
  }

  /**
   * When every part succeeds, exactly PartCount(length) part copies are sent
   * and then one CompleteMultipartUpload of the session, listing every part
   * with its ETag; its error is the result.
   */
  lemma AllPartsCopiedThenCompleted(s3: S3Api, job: PartJob, calls: seq<Request>, err: Option<AwsError>)
    requires PartsRun(s3, job, calls, err) && AllPartsOk(s3, job)
    ensures PartCopies(calls) == PartCount(job.length)
    ensures job.length > MaxUploadSizeBytes ==> PartCopies(calls) >= 2
    ensures |calls| == PartCount(job.length) + 1
    ensures calls[|calls| - 1] == CompleteMultipartUpload(job.bucket, job.dst, job.uploadId,
                                                          CompletedParts(s3, job, PartCount(job.length)))
    ensures err == s3.completeMultipartUpload(calls[|calls| - 1])
  {
    PartRequestsThenOther(job, PartCount(job.length), CompleteRequest(s3, job));
  }

  /**
   * Fail-fast: when some part fails, the first failing part f is the last
   * request sent, its error is the result, no part after it is attempted, and
   * the upload is never completed.
   */
  lemma FailedPartAbandonsUpload(s3: S3Api, job: PartJob, calls: seq<Request>, err: Option<AwsError>, f: nat)
    requires PartsRun(s3, job, calls, err)
    requires f < PartCount(job.length) && !PartOk(s3, job, f)
    requires forall i :: 0 <= i < f ==> PartOk(s3, job, i)
    ensures |calls| == f + 1 && calls[f] == job.PartRequest(f)
    ensures err == Some(s3.uploadPartCopy(calls[f]).error)
    ensures !Completes(calls)
  {
    FirstFailureIs(s3, job, PartCount(job.length), f);
  }

  /**
   * Of three parts, the second fails: parts 1 and 2 are requested, the
   * error of part 2 is returned, and the upload is not completed.
   */
  lemma SecondOfThreePartsFails(s3: S3Api, job: PartJob, calls: seq<Request>, err: Option<AwsError>)
    requires job.length == 3 * MaxUploadSizeBytes
    requires PartOk(s3, job, 0) && !PartOk(s3, job, 1)
    requires PartsRun(s3, job, calls, err)
    ensures calls == [job.PartRequest(0), job.PartRequest(1)]
    ensures err == Some(s3.uploadPartCopy(job.PartRequest(1)).error)
    ensures !Completes(calls)
  {
    assert PartCount(job.length) == 3;
    FailedPartAbandonsUpload(s3, job, calls, err, 1);
  }

  /** The upload is completed exactly when every part copy succeeded. */
  lemma CompletesIffAllPartsOk(s3: S3Api, job: PartJob, calls: seq<Request>, err: Option<AwsError>)
    requires PartsRun(s3, job, calls, err)
    ensures Completes(calls) <==> AllPartsOk(s3, job)
  {
    var f := FirstFailure(s3, job, PartCount(job.length));
    if AllPartsOk(s3, job) {
      assert calls[|calls| - 1].CompleteMultipartUpload?;
    } else {
      FailedPartAbandonsUpload(s3, job, calls, err, f);
    }
  }

  /** The S3 backend: the bucket it was created for and the client it talks through. */
  datatype Storage = Storage(bucket: string, s3: S3Api)
  {
    /** Storage.Copy: the options key "bucket" may name another destination bucket. */
    method Copy(src: string, dst: string, options: seq<OptionMap>) returns (err: Option<AwsError>, calls: seq<Request>)
      ensures CopyRun(s3, bucket, Chosen(options, "bucket", bucket, AsString), src, dst, calls, err)
    {
      var target := Choose(options, "bucket", bucket, AsString);
      err, calls := CopyTo(target, src, dst);
    }

    /** Storage.CopyWithContext: the same copy, but the options key is "dstBucket". */
    method CopyWithContext(src: string, dst: string, options: seq<OptionMap>) returns (err: Option<AwsError>, calls: seq<Request>)
      ensures CopyRun(s3, bucket, Chosen(options, "dstBucket", bucket, AsString), src, dst, calls, err)
    {
      var target := Choose(options, "dstBucket", bucket, AsString);
      err, calls := CopyTo(target, src, dst);
    }

    /** The body both Copy methods share once the bucket is selected. */
    method CopyTo(target: string, src: string, dst: string) returns (err: Option<AwsError>, calls: seq<Request>)
      ensures CopyRun(s3, bucket, target, src, dst, calls, err)
    {
      var head := HeadObject(target, src);
      calls := [head];
      var hr := s3.headObject(head);
      if hr.Err? {
        return Some(hr.error), calls;
      }
      var length := hr.value;
      if length <= MaxUploadSizeBytes {
        var copy := CopyObject(target, CopySource(bucket, src), dst);
        calls := calls + [copy];
        err := s3.copyObject(copy);
        return;
      }
      var create := CreateMultipartUpload(target, dst);
      calls := calls + [create];
      var cmr := s3.createMultipartUpload(create);
      if cmr.Err? {
        return Some(cmr.error), calls;
      }
      var partCalls;
      err, partCalls := CopyParts(PartJob(target, src, dst, cmr.value, length));
      calls := calls + partCalls;
      assert calls[2..] == partCalls;
    }

    /** The `for prt` loop and the completion: copy every part in order, fail fast, then commit the part list. */
    method CopyParts(job: PartJob) returns (err: Option<AwsError>, calls: seq<Request>)
      ensures PartsRun(s3, job, calls, err)
    {
      var parts: seq<CompletedPart> := [];
      calls := [];
      var maxPart := PartCount(job.length);
      var prt := 0;
      while prt < maxPart
        invariant 0 <= prt <= maxPart
        invariant forall i :: 0 <= i < prt ==> PartOk(s3, job, i)
        invariant calls == job.PartRequests(prt)
        invariant parts == CompletedParts(s3, job, prt)
      {
        var start := prt * MaxUploadSizeBytes;
        var from := start;
        var to := start + MaxUploadSizeBytes;
        if prt != 0 {
          from := from + 1;
        }
        if to > job.length {
          to := job.length - 1;
        }
        var request := UploadPartCopy(job.bucket, CopySource(job.bucket, job.src), ByteRange(from, to),
                                      job.dst, prt + 1, job.uploadId);
        assert request == job.PartRequest(prt);
        calls := calls + [request];
        var upr := s3.uploadPartCopy(request);
        if upr.Err? {
          PartsRunOnFailure(s3, job, prt);
          return Some(upr.error), calls;
        }
        CompletedPartsStep(s3, job, prt);
        parts := parts + [CompletedPart(upr.value, prt + 1)];
        prt := prt + 1;
      }
      PartsRunOnSuccess(s3, job);
      var complete := CompleteMultipartUpload(job.bucket, job.dst, job.uploadId, parts);
      calls := calls + [complete];
      err := s3.completeMultipartUpload(complete);
    }
  }
}
