/** The Next.js webapp's view of the database through Prisma: the rows the
    OCR job and the bundle builder read and write. The enums are the
    backend's (Models), written in Prisma's upper-case spelling; the
    Prisma schema itself is not part of this model, so a row carries only
    the columns the webapp code touches. */
module WebModels {
  import opened Common
  import opened Models
  import Order

  /** Prisma's spelling of a case status. */
  function CaseStatusPrismaName(s: CaseStatus): string {
    match s
    case Filed => "FILED"
    case Registered => "REGISTERED"
    case Pending => "PENDING"
    case Disposed => "DISPOSED"
    case Transferred => "TRANSFERRED"
  }

  /** Prisma's spelling of a document category. */
  function CategoryPrismaName(c: DocumentCategory): string {
    match c
    case CaseFile => "CASE_FILE"
    case Annexure => "ANNEXURE"
    case Judgment => "JUDGMENT"
    case Order => "ORDER"
    case Misc => "MISC"
  }

  /** Prisma's spelling of an upload status. */
  function UploadStatusPrismaName(s: UploadStatus): string {
    match s
    case UploadPending => "PENDING"
    case Uploading => "UPLOADING"
    case UploadCompleted => "COMPLETED"
    case UploadFailed => "FAILED"
  }

  /** A `Document` row as the webapp reads it; times are integer
      milliseconds. */
  datatype WebDocument = WebDocument(
    id: string,
    caseId: string,
    title: string,
    category: DocumentCategory,
    s3Bucket: string,
    s3Key: string,
    uploadStatus: UploadStatus,
    ocrStatus: OcrStatus,
    extractedText: Option<string>,
    uploadedAt: Option<int>,
    classificationConfidence: Option<real>,
    aiMetadata: Option<Json>,
    uploadError: Option<string>)

  /** The `uploadedAt` column as a sort key (NULL last when ascending). */
  function UploadedKey(d: WebDocument): Order.Key {
    match d.uploadedAt
    case Some(t) => Order.KInt(t)
    case None => Order.KNull
  }

  /** An `AIInsight` row: a cached analysis result for a case. */
  datatype AiInsight = AiInsight(id: string, caseId: string, expiresAt: int)

  /** The tables the webapp's Prisma client changes in place. */
  class WebDatabase {
    var caseIds: seq<string>
    var documents: seq<WebDocument>
    var insights: seq<AiInsight>

    constructor(caseIds: seq<string>, documents: seq<WebDocument>, insights: seq<AiInsight>)
      ensures this.caseIds == caseIds && this.documents == documents && this.insights == insights
    {
      this.caseIds := caseIds;
      this.documents := documents;
      this.insights := insights;
    }
  }
}
