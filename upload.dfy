/** Direct-to-S3 uploads (backend/app/api/v1/endpoints/upload.py): a single
    pre-signed PUT for small files and the Amazon S3 multipart-upload
    protocol for large ones (initiate, one pre-signed URL per part, complete
    with the part list in ascending PartNumber order, abort on failure).

    S3 is an oracle: every endpoint takes the outcome of each S3 request it
    may make as a parameter and reports, besides its HTTP response, the
    sequence of S3 requests it actually made. */
module Upload {
  import opened Common

  /** Multipart uploads need a file strictly larger than this (schema `gt`). */
  const MultipartMinExclusive: int := 15_000_000
  const DefaultChunkSize: int := 5_242_880
  /** Expiry of the single pre-signed PUT URL, in seconds. */
  const SinglePutExpiry: int := 900
  /** Expiry of each pre-signed part URL, in seconds. */
  const PartUrlExpiry: int := 3600

  datatype Part = Part(partNumber: int, etag: string)

  /** An S3 request made by an endpoint. */
  datatype S3Call =
    | PresignPut(key: string, contentType: string, expiresIn: int)
    | InitiateMultipart(key: string, contentType: string)
    | PresignParts(key: string, uploadId: string, numParts: int, expiresIn: int)
    | CompleteMultipart(key: string, uploadId: string, parts: seq<Part>)
    | AbortMultipart(key: string, uploadId: string)

  /** An endpoint's HTTP response together with the S3 requests it made. */
  datatype Reply<T> = Reply(response: Result<T, Failure>, calls: seq<S3Call>)

  datatype StandardUploadRequest =
    StandardUploadRequest(caseNumber: string, documentId: string, fileSize: int, contentType: string)

  datatype StandardUploadResponse = StandardUploadResponse(
    uploadUrl: string, s3Key: string, httpMethod: string, expiresIn: int, headers: map<string, string>)

  datatype MultipartInitRequest = MultipartInitRequest(
    caseNumber: string, documentId: string, fileSize: int, chunkSize: int, contentType: string)

  datatype MultipartInitResponse =
    MultipartInitResponse(uploadId: string, s3Key: string, chunkUrls: seq<string>, totalParts: int)

  datatype MultipartCompleteRequest = MultipartCompleteRequest(uploadId: string, s3Key: string, parts: seq<Part>)

  /** What S3 returns from CompleteMultipartUpload (either key may be missing). */
  datatype CompletedObject = CompletedObject(location: Option<string>, etag: Option<string>)

  datatype MultipartCompleteResponse =
    MultipartCompleteResponse(status: string, s3Key: string, location: string, etag: string)

  datatype AbortResponse = AbortResponse(status: string, uploadId: string, message: string)

  // ---------------------------------------------------------------------
  // Key scheme and part arithmetic
  // ---------------------------------------------------------------------

  /** The object key `{khc_advocate_id}/{case_number}/{document_id}.pdf`. */
  function S3Key(khcAdvocateId: string, caseNumber: string, documentId: string): (key: string)
    ensures EndsWith(key, ".pdf")
    ensures StartsWith(key, khcAdvocateId + "/")
    ensures |key| == |khcAdvocateId| + |caseNumber| + |documentId| + 6
  {
    khcAdvocateId + "/" + caseNumber + "/" + documentId + ".pdf"
  }

  /** Python's `a // b`, which rounds toward negative infinity. */
  function FloorDiv(a: int, b: int): int
    requires b != 0
  {
    if b > 0 then a / b else (-a) / (-b)
  }

  /** `num_parts = (file_size + chunk_size - 1) // chunk_size`. */
  function NumParts(fileSize: int, chunkSize: int): int
    requires chunkSize != 0
  {
    FloorDiv(fileSize + chunkSize - 1, chunkSize)
  }

  /** For a positive chunk size the part count is the ceiling of
      file_size / chunk_size: the parts cover the file and the last one is
      not empty. */
  lemma NumPartsIsCeiling(fileSize: int, chunkSize: int)
    requires chunkSize > 0
    ensures (NumParts(fileSize, chunkSize) - 1) * chunkSize < fileSize
    ensures fileSize <= NumParts(fileSize, chunkSize) * chunkSize
  {
    var a := fileSize + chunkSize - 1;
    var n := a / chunkSize;
    var r := a % chunkSize;
    assert a == n * chunkSize + r && 0 <= r < chunkSize;
    assert (n - 1) * chunkSize == n * chunkSize - chunkSize;
  }

  /** A file above the multipart threshold uploaded in default-size chunks
      has at least three parts. */
  lemma DefaultChunkingHasThreeParts(fileSize: int)
    requires fileSize > MultipartMinExclusive
    ensures NumParts(fileSize, DefaultChunkSize) >= 3
  {
    NumPartsIsCeiling(fileSize, DefaultChunkSize);
  }

  /** A refusal by the request schema: 422, naming the field that failed.
      The wording of Pydantic's error list is not modelled. */
  function ValidationError(field: string): (f: Failure)
    ensures f.status == 422
  {
    Failure(422, field)
  }

  // ---------------------------------------------------------------------
  // Standard upload: one pre-signed PUT
  // ---------------------------------------------------------------------

  /** POST /upload/presigned-url. `presigned` is the outcome of asking S3
      for a PUT URL. */
  function GetPresignedUrl(req: StandardUploadRequest, khcAdvocateId: string, presigned: Result<string, string>)
    : (reply: Reply<StandardUploadResponse>)
    ensures reply.response.Ok? <==> req.fileSize > 0 && presigned.Ok?
    ensures req.fileSize <= 0 ==> reply.response == Err(ValidationError("file_size")) && reply.calls == []
    ensures req.fileSize > 0 ==>
      reply.calls == [PresignPut(S3Key(khcAdvocateId, req.caseNumber, req.documentId), req.contentType, SinglePutExpiry)]
    ensures reply.response.Ok? ==>
      var r := reply.response.value;
      && r.uploadUrl == presigned.value
      && r.s3Key == S3Key(khcAdvocateId, req.caseNumber, req.documentId)
      && r.httpMethod == "PUT" && r.expiresIn == SinglePutExpiry
      && r.headers == map["Content-Type" := req.contentType]
    ensures req.fileSize > 0 && presigned.Err? ==>
      reply.response == Err(Failure(500, "Failed to generate upload URL: " + presigned.error))
  {
    if req.fileSize <= 0 then
      Reply(Err(ValidationError("file_size")), [])
    else
      var key := S3Key(khcAdvocateId, req.caseNumber, req.documentId);
      var calls := [PresignPut(key, req.contentType, SinglePutExpiry)];
      match presigned
      case Err(e) => Reply(Err(Failure(500, "Failed to generate upload URL: " + e)), calls)
      case Ok(url) =>
        Reply(Ok(StandardUploadResponse(url, key, "PUT", SinglePutExpiry, map["Content-Type" := req.contentType])), calls)
  }

  // ---------------------------------------------------------------------
  // Multipart initiation, as written
  // ---------------------------------------------------------------------

  const ZeroDivisionMessage: string := "integer division or modulo by zero"

  /** POST /multipart/init as written: the request schema demands
      file_size > 15,000,000; the handler's own `< 15_000_000` check follows;
      `chunk_size` is not constrained, so a zero chunk size raises only after
      S3 has initiated the upload. `initiated` is S3's upload id (or error)
      and `partUrls` the outcome of pre-signing the part URLs. */
  function InitiateMultipartUpload(
    req: MultipartInitRequest, khcAdvocateId: string,
    initiated: Result<string, string>, partUrls: Result<seq<string>, string>)
    : (reply: Reply<MultipartInitResponse>)
    ensures req.fileSize <= MultipartMinExclusive <==> reply.response == Err(ValidationError("file_size"))
    ensures !(reply.response.Err? && reply.response.error.status == 400)
    ensures req.fileSize > MultipartMinExclusive ==>
      |reply.calls| >= 1 && reply.calls[0] == InitiateMultipart(S3Key(khcAdvocateId, req.caseNumber, req.documentId), req.contentType)
    ensures forall c :: c in reply.calls ==> !c.AbortMultipart?
    ensures reply.response.Ok? <==>
      req.fileSize > MultipartMinExclusive && initiated.Ok? && req.chunkSize != 0 && partUrls.Ok?
    ensures req.fileSize > MultipartMinExclusive && initiated.Err? ==>
      reply.response == Err(Failure(500, "Failed to initiate multipart upload: " + initiated.error))
      && |reply.calls| == 1
    ensures req.fileSize > MultipartMinExclusive && initiated.Ok? && req.chunkSize != 0 && partUrls.Err? ==>
      reply.response == Err(Failure(500, "Failed to initiate multipart upload: " + partUrls.error))
      && |reply.calls| == 2
    ensures reply.response.Ok? ==>
      && initiated.Ok? && partUrls.Ok? && req.chunkSize != 0
      && reply.response.value == MultipartInitResponse(initiated.value,
           S3Key(khcAdvocateId, req.caseNumber, req.documentId), partUrls.value, NumParts(req.fileSize, req.chunkSize))
      && |reply.calls| == 2 && reply.calls[1] == PresignParts(S3Key(khcAdvocateId, req.caseNumber, req.documentId),
           initiated.value, NumParts(req.fileSize, req.chunkSize), PartUrlExpiry)
  {
    if req.fileSize <= MultipartMinExclusive then
      Reply(Err(ValidationError("file_size")), [])
    else if req.fileSize < 15_000_000 then
      Reply(Err(Failure(400, "File size must be >= 15MB for multipart upload. Use standard upload instead.")), [])
    else
      var key := S3Key(khcAdvocateId, req.caseNumber, req.documentId);
      var init := InitiateMultipart(key, req.contentType);
      match initiated
      case Err(e) => Reply(Err(Failure(500, "Failed to initiate multipart upload: " + e)), [init])
      case Ok(uploadId) =>
        if req.chunkSize == 0 then
          Reply(Err(Failure(500, "Failed to initiate multipart upload: " + ZeroDivisionMessage)), [init])
        else
          var n := NumParts(req.fileSize, req.chunkSize);
          var calls := [init, PresignParts(key, uploadId, n, PartUrlExpiry)];
          match partUrls
          case Err(e) => Reply(Err(Failure(500, "Failed to initiate multipart upload: " + e)), calls)
          case Ok(urls) => Reply(Ok(MultipartInitResponse(uploadId, key, urls, n)), calls)
  }

  /** Exactly 15,000,000 bytes is refused by the schema although the
      handler's message and the endpoint's description say ">= 15MB". */
  lemma ExactThresholdRejected(req: MultipartInitRequest, khc: string,
                               initiated: Result<string, string>, partUrls: Result<seq<string>, string>)
    requires req.fileSize == 15_000_000
    ensures InitiateMultipartUpload(req, khc, initiated, partUrls).response.error.status == 422
  {
  }

  /** A zero chunk size fails with a 500 after S3 has initiated the upload,
      and the initiated upload is never aborted. */
  lemma ZeroChunkLeavesUploadOpen(req: MultipartInitRequest, khc: string, uploadId: string,
                                  partUrls: Result<seq<string>, string>)
    requires req.fileSize > MultipartMinExclusive && req.chunkSize == 0
    ensures var reply := InitiateMultipartUpload(req, khc, Ok(uploadId), partUrls);
      && reply.response == Err(Failure(500, "Failed to initiate multipart upload: " + ZeroDivisionMessage))
      && reply.calls == [InitiateMultipart(S3Key(khc, req.caseNumber, req.documentId), req.contentType)]
  {
  }

  /** A negative chunk size is accepted: when S3 answers, the reply is a
      success announcing no parts at all, or a negative number of them. */
  lemma NegativeChunkGivesNegativeParts(req: MultipartInitRequest, khc: string, uploadId: string, urls: seq<string>)
    requires req.fileSize > MultipartMinExclusive && req.chunkSize < 0
    ensures var reply := InitiateMultipartUpload(req, khc, Ok(uploadId), Ok(urls));
      reply.response.Ok? && reply.response.value.totalParts <= 0
  {
    var a := req.fileSize + req.chunkSize - 1;
    assert -a < -req.chunkSize;
    assert (-a) / (-req.chunkSize) <= 0;
  }

  // ---------------------------------------------------------------------
  // Multipart initiation, corrected
  // ---------------------------------------------------------------------

  /** Initiation with the chunk size validated before any S3 request: a
      non-positive chunk size is a 400 and nothing is initiated. */
  function InitiateMultipartUploadChecked(
    req: MultipartInitRequest, khcAdvocateId: string,
    initiated: Result<string, string>, partUrls: Result<seq<string>, string>)
    : (reply: Reply<MultipartInitResponse>)
    ensures req.fileSize > MultipartMinExclusive && req.chunkSize <= 0 ==>
      reply.response.Err? && reply.response.error.status == 400 && reply.calls == []
    ensures reply.response.Ok? ==>
      var n := reply.response.value.totalParts;
      && req.chunkSize > 0 && n >= 1
      && (n - 1) * req.chunkSize < req.fileSize <= n * req.chunkSize
    ensures reply.response.Err? && reply.calls != [] ==> initiated.Err? || partUrls.Err?
    ensures reply.response.Ok? <==>
      req.fileSize > MultipartMinExclusive && req.chunkSize > 0 && initiated.Ok? && partUrls.Ok?
    ensures req.fileSize > MultipartMinExclusive && req.chunkSize > 0 && initiated.Err? ==>
      reply.response == Err(Failure(500, "Failed to initiate multipart upload: " + initiated.error))
    ensures req.fileSize > MultipartMinExclusive && req.chunkSize > 0 && initiated.Ok? && partUrls.Err? ==>
      reply.response == Err(Failure(500, "Failed to initiate multipart upload: " + partUrls.error))
  {
    if req.fileSize > MultipartMinExclusive && req.chunkSize <= 0 then
      Reply(Err(Failure(400, "chunk_size must be greater than 0")), [])
    else
      var reply := InitiateMultipartUpload(req, khcAdvocateId, initiated, partUrls);
      if reply.response.Ok? then
        NumPartsIsCeiling(req.fileSize, req.chunkSize);
        reply
      else reply
  }

  // ---------------------------------------------------------------------
  // Multipart completion
  // ---------------------------------------------------------------------

  /** The request schema: every PartNumber is at least 1. */
  predicate PartNumbersValid(parts: seq<Part>) {
    forall i :: 0 <= i < |parts| ==> parts[i].partNumber >= 1
  }

  /** Each part number is below the next one (what the handler's loop checks). */
  predicate AdjacentAscending(parts: seq<Part>) {
    forall i :: 0 <= i < |parts| - 1 ==> parts[i].partNumber < parts[i + 1].partNumber
  }

  /** Part numbers strictly increase along the list (S3's requirement). */
  predicate StrictlyAscending(parts: seq<Part>) {
    forall i, j :: 0 <= i < j < |parts| ==> parts[i].partNumber < parts[j].partNumber
  }

  lemma {:induction false} AdjacentChain(parts: seq<Part>, i: int, j: int)
    requires AdjacentAscending(parts) && 0 <= i < j < |parts|
    ensures parts[i].partNumber < parts[j].partNumber
    decreases j - i
  {
    if j > i + 1 { AdjacentChain(parts, i, j - 1); }
  }

  /** Comparing neighbours is enough: the list is strictly ascending, so
      in particular no PartNumber repeats. */
  lemma AdjacentIffStrictlyAscending(parts: seq<Part>)
    ensures AdjacentAscending(parts) <==> StrictlyAscending(parts)
  {
    if AdjacentAscending(parts) {
      forall i, j | 0 <= i < j < |parts| ensures parts[i].partNumber < parts[j].partNumber {
        AdjacentChain(parts, i, j);
      }
    }
  }

  /** The handler's loop over `range(len(parts) - 1)`, leaving at the first
      pair out of order. */
  method CheckPartOrder(parts: seq<Part>) returns (ok: bool)
    ensures ok <==> StrictlyAscending(parts)
  {
    AdjacentIffStrictlyAscending(parts);
    var i := 0;
    while i < |parts| - 1
      invariant 0 <= i && (i == 0 || i < |parts|)
      invariant forall k :: 0 <= k < i ==> parts[k].partNumber < parts[k + 1].partNumber
    {
      if parts[i].partNumber >= parts[i + 1].partNumber {
        return false;
      }
      i := i + 1;
    }
    return true;
  }

  const OrderMessage: string := "Parts must be sorted by PartNumber in ascending order"

  /** POST /multipart/complete. `completed` is S3's answer to
      CompleteMultipartUpload. The abort that follows a failed completion
      does not affect the reply whatever its outcome, so it is only a call. */
  method CompleteMultipartUpload(req: MultipartCompleteRequest, completed: Result<CompletedObject, string>)
    returns (reply: Reply<MultipartCompleteResponse>)
    ensures !PartNumbersValid(req.parts) ==>
      reply.response == Err(ValidationError("PartNumber")) && reply.calls == []
    ensures PartNumbersValid(req.parts) && !StrictlyAscending(req.parts) ==>
      reply.response == Err(Failure(400, OrderMessage)) && reply.calls == []
    ensures PartNumbersValid(req.parts) && StrictlyAscending(req.parts) ==>
      |reply.calls| >= 1 && reply.calls[0] == CompleteMultipart(req.s3Key, req.uploadId, req.parts)
    ensures PartNumbersValid(req.parts) && StrictlyAscending(req.parts) && completed.Ok? ==>
      && reply.calls == [CompleteMultipart(req.s3Key, req.uploadId, req.parts)]
      && reply.response == Ok(MultipartCompleteResponse("completed", req.s3Key,
           completed.value.location.GetOr(""), completed.value.etag.GetOr("")))
    ensures PartNumbersValid(req.parts) && StrictlyAscending(req.parts) && completed.Err? ==>
      && reply.calls == [CompleteMultipart(req.s3Key, req.uploadId, req.parts), AbortMultipart(req.s3Key, req.uploadId)]
      && reply.response == Err(Failure(500, "Failed to complete multipart upload: " + completed.error))
  {
    if !PartNumbersValid(req.parts) {
      return Reply(Err(ValidationError("PartNumber")), []);
    }
    var ordered := CheckPartOrder(req.parts);
    if !ordered {
      return Reply(Err(Failure(400, OrderMessage)), []);
    }
    var calls := [CompleteMultipart(req.s3Key, req.uploadId, req.parts)];
    match completed {
      case Ok(obj) =>
        reply := Reply(Ok(MultipartCompleteResponse("completed", req.s3Key,
                          obj.location.GetOr(""), obj.etag.GetOr(""))), calls);
      case Err(e) =>
        // one abort attempt, whose own failure is only logged
        calls := calls + [AbortMultipart(req.s3Key, req.uploadId)];
        reply := Reply(Err(Failure(500, "Failed to complete multipart upload: " + e)), calls);
    }
  }

  // ---------------------------------------------------------------------
  // Abort
  // ---------------------------------------------------------------------

  /** DELETE /multipart/abort/{upload_id}. */
  function AbortMultipartUpload(uploadId: string, s3Key: string, aborted: Result<(), string>)
    : (reply: Reply<AbortResponse>)
    ensures reply.calls == [AbortMultipart(s3Key, uploadId)]
    ensures reply.response.Ok? <==> aborted.Ok?
    ensures reply.response.Ok? ==> reply.response.value.status == "aborted" && reply.response.value.uploadId == uploadId
    ensures aborted.Err? ==> reply.response == Err(Failure(500, "Failed to abort multipart upload: " + aborted.error))
  {
    var calls := [AbortMultipart(s3Key, uploadId)];
    match aborted
    case Ok(_) => Reply(Ok(AbortResponse("aborted", uploadId, "Multipart upload aborted and cleaned up")), calls)
    case Err(e) => Reply(Err(Failure(500, "Failed to abort multipart upload: " + e)), calls)
  }

  /** Both upload endpoints derive the same key from the same case and
      document, whatever the declared content type. */
  lemma KeyIndependentOfContentType(std: StandardUploadRequest, mp: MultipartInitRequest, khc: string,
                                    url: string, uploadId: string, urls: seq<string>)
    requires std.caseNumber == mp.caseNumber && std.documentId == mp.documentId
    requires std.fileSize > 0 && mp.fileSize > MultipartMinExclusive && mp.chunkSize > 0
    ensures GetPresignedUrl(std, khc, Ok(url)).response.value.s3Key
         == InitiateMultipartUpload(mp, khc, Ok(uploadId), Ok(urls)).response.value.s3Key
  {
  }
}
