/** The FastAPI backend's database (backend/app/db/models.py): the enums
    with their stored names, one record type per table with the column
    defaults, the uniqueness and foreign-key constraints as an invariant on
    the whole database, and the ORM's cascading deletes. Timestamps are
    integers; identifiers (UUIDs) are strings. */
module Models {
  import opened Common

  type Id = string

  // ---------------------------------------------------------------------
  // Enums: each value and the string PostgreSQL stores for it
  // ---------------------------------------------------------------------

  datatype UserRole = Advocate | Admin {
    function Name(): string {
      match this
      case Advocate => "advocate"
      case Admin => "admin"
    }
  }

  datatype CaseStatus = Filed | Registered | Pending | Disposed | Transferred {
    function Name(): string {
      match this
      case Filed => "filed"
      case Registered => "registered"
      case Pending => "pending"
      case Disposed => "disposed"
      case Transferred => "transferred"
    }
  }

  function CaseStatusFromName(s: string): (r: Option<CaseStatus>)
    ensures r.Some? ==> r.value.Name() == s
    ensures forall x: CaseStatus :: x.Name() == s ==> r == Some(x)
  {
    if s == "filed" then Some(Filed)
    else if s == "registered" then Some(Registered)
    else if s == "pending" then Some(Pending)
    else if s == "disposed" then Some(Disposed)
    else if s == "transferred" then Some(Transferred)
    else None
  }

  datatype CasePartyRole = Petitioner | Respondent | Appellant | Defendant {
    function Name(): string {
      match this
      case Petitioner => "petitioner"
      case Respondent => "respondent"
      case Appellant => "appellant"
      case Defendant => "defendant"
    }
  }

  function PartyRoleFromName(s: string): (r: Option<CasePartyRole>)
    ensures r.Some? ==> r.value.Name() == s
    ensures forall x: CasePartyRole :: x.Name() == s ==> r == Some(x)
  {
    if s == "petitioner" then Some(Petitioner)
    else if s == "respondent" then Some(Respondent)
    else if s == "appellant" then Some(Appellant)
    else if s == "defendant" then Some(Defendant)
    else None
  }

  datatype DocumentCategory = CaseFile | Annexure | Judgment | Order | Misc {
    function Name(): string {
      match this
      case CaseFile => "case_file"
      case Annexure => "annexure"
      case Judgment => "judgment"
      case Order => "order"
      case Misc => "misc"
    }
  }

  function CategoryFromName(s: string): (r: Option<DocumentCategory>)
    ensures r.Some? ==> r.value.Name() == s
    ensures forall x: DocumentCategory :: x.Name() == s ==> r == Some(x)
  {
    if s == "case_file" then Some(CaseFile)
    else if s == "annexure" then Some(Annexure)
    else if s == "judgment" then Some(Judgment)
    else if s == "order" then Some(Order)
    else if s == "misc" then Some(Misc)
    else None
  }

  datatype UploadStatus = UploadPending | Uploading | UploadCompleted | UploadFailed {
    function Name(): string {
      match this
      case UploadPending => "pending"
      case Uploading => "uploading"
      case UploadCompleted => "completed"
      case UploadFailed => "failed"
    }
  }

  datatype OcrStatus = NotRequired | OcrPending | OcrProcessing | OcrCompleted | OcrFailed {
    function Name(): string {
      match this
      case NotRequired => "not_required"
      case OcrPending => "pending"
      case OcrProcessing => "processing"
      case OcrCompleted => "completed"
      case OcrFailed => "failed"
    }
  }

  datatype CaseEventType = Hearing | OrderEvent | JudgmentEvent | Filing | Notice {
    function Name(): string {
      match this
      case Hearing => "hearing"
      case OrderEvent => "order"
      case JudgmentEvent => "judgment"
      case Filing => "filing"
      case Notice => "notice"
    }
  }

  datatype AnalysisStatus = AnalysisPending | AnalysisProcessing | AnalysisCompleted | AnalysisFailed {
    function Name(): string {
      match this
      case AnalysisPending => "pending"
      case AnalysisProcessing => "processing"
      case AnalysisCompleted => "completed"
      case AnalysisFailed => "failed"
    }
  }

  datatype UrgencyLevel = Low | Medium | High | Critical {
    function Name(): string {
      match this
      case Low => "low"
      case Medium => "medium"
      case High => "high"
      case Critical => "critical"
    }
  }

  function UrgencyFromName(s: string): (r: Option<UrgencyLevel>)
    ensures r.Some? ==> r.value.Name() == s
    ensures forall x: UrgencyLevel :: x.Name() == s ==> r == Some(x)
  {
    if s == "low" then Some(Low)
    else if s == "medium" then Some(Medium)
    else if s == "high" then Some(High)
    else if s == "critical" then Some(Critical)
    else None
  }

  // ---------------------------------------------------------------------
  // Records
  // ---------------------------------------------------------------------

  datatype UserRecord = UserRecord(
    id: Id, email: string, mobile: Option<string>, passwordHash: string,
    khcAdvocateId: string, khcAdvocateName: string, khcEnrollmentNumber: Option<string>,
    role: UserRole, isActive: bool, isVerified: bool,
    createdAt: int, updatedAt: int, lastLoginAt: Option<int>, preferences: map<string, Json>)

  datatype CaseRecord = CaseRecord(
    id: Id, advocateId: Id, caseNumber: Option<string>, efilingNumber: string,
    caseType: string, caseYear: int, partyRole: CasePartyRole,
    petitionerName: string, respondentName: string, efilingDate: int,
    benchType: Option<string>, judgeName: Option<string>, courtNumber: Option<string>,
    status: CaseStatus, nextHearingDate: Option<int>, syncStatus: string,
    isVisible: bool, createdAt: int, updatedAt: int)

  datatype DocumentRecord = DocumentRecord(
    id: Id, caseId: Id, khcDocumentId: string, category: DocumentCategory,
    title: string, description: Option<string>, s3Key: string, s3Bucket: string,
    fileSize: int, contentType: string, uploadStatus: UploadStatus,
    uploadedAt: Option<int>, isOcrRequired: bool, ocrStatus: Option<OcrStatus>,
    isLocked: bool, createdAt: int, updatedAt: int)

  /** A timeline event; `orderDocumentId` optionally names the document
      holding the order made at the event. */
  datatype HistoryRecord = HistoryRecord(
    id: Id, caseId: Id, eventType: CaseEventType, eventDate: int, businessRecorded: string,
    orderDocumentId: Option<Id>)

  datatype AnalysisRecord = AnalysisRecord(
    id: Id, caseId: Id, advocateId: Id, status: AnalysisStatus, modelVersion: string,
    analysis: Option<Json>, urgencyLevel: Option<UrgencyLevel>, caseSummary: Option<string>,
    processedAt: Option<int>, tokenCount: Option<int>, errorMessage: Option<string>,
    retryCount: int, createdAt: int, updatedAt: int)

  // ---------------------------------------------------------------------
  // Column defaults
  // ---------------------------------------------------------------------

  /** A user row as inserted with only the required columns given. */
  function NewUser(id: Id, email: string, passwordHash: string, khcAdvocateId: string,
                   khcAdvocateName: string, now: int): (u: UserRecord)
    ensures u.role == Advocate && u.isActive && !u.isVerified
    ensures u.lastLoginAt.None? && u.preferences == map[] && u.createdAt == now == u.updatedAt
    ensures u.id == id && u.email == email && u.passwordHash == passwordHash
    ensures u.khcAdvocateId == khcAdvocateId && u.khcAdvocateName == khcAdvocateName
  {
    UserRecord(id, email, None, passwordHash, khcAdvocateId, khcAdvocateName, None,
               Advocate, true, false, now, now, None, map[])
  }

  /** A case row as inserted with only the required columns given. */
  function NewCase(id: Id, advocateId: Id, efilingNumber: string, caseType: string, caseYear: int,
                   partyRole: CasePartyRole, petitionerName: string, respondentName: string,
                   efilingDate: int, now: int): (c: CaseRecord)
    ensures c.status == Filed && c.isVisible && c.syncStatus == "pending"
    ensures c.nextHearingDate.None? && c.createdAt == now == c.updatedAt
    ensures c.id == id && c.advocateId == advocateId && c.efilingNumber == efilingNumber
  {
    CaseRecord(id, advocateId, None, efilingNumber, caseType, caseYear, partyRole,
               petitionerName, respondentName, efilingDate, None, None, None,
               Filed, None, "pending", true, now, now)
  }

  /** A value fits a `VARCHAR(n)` column; PostgreSQL refuses a longer one
      and the commit fails. */
  predicate FitsVarchar(v: string, n: nat) { |v| <= n }

  predicate FitsOptVarchar(v: Option<string>, n: nat) { v.None? || |v.value| <= n }

  /** The bounded string columns of `users` (backend/app/db/models.py:99-106). */
  predicate FitsUserColumns(u: UserRecord) {
    && FitsVarchar(u.email, 255) && FitsOptVarchar(u.mobile, 15) && FitsVarchar(u.passwordHash, 255)
    && FitsVarchar(u.khcAdvocateId, 50) && FitsVarchar(u.khcAdvocateName, 255)
    && FitsOptVarchar(u.khcEnrollmentNumber, 50)
  }

  /** The bounded string columns of `cases` (backend/app/db/models.py:137-163). */
  predicate FitsCaseColumns(c: CaseRecord) {
    && FitsOptVarchar(c.caseNumber, 100) && FitsVarchar(c.efilingNumber, 100) && FitsVarchar(c.caseType, 50)
    && FitsOptVarchar(c.benchType, 50) && FitsOptVarchar(c.judgeName, 255) && FitsOptVarchar(c.courtNumber, 50)
    && FitsVarchar(c.syncStatus, 50)
  }

  const DefaultBucket: string := "lawmate-case-pdfs"

  /** A document row as inserted with only the required columns given. */
  function NewDocument(id: Id, caseId: Id, khcDocumentId: string, category: DocumentCategory,
                       title: string, s3Key: string, fileSize: int, now: int): (d: DocumentRecord)
    ensures d.uploadStatus == UploadPending && d.ocrStatus == Some(NotRequired)
    ensures !d.isLocked && !d.isOcrRequired
    ensures d.contentType == "application/pdf" && d.s3Bucket == DefaultBucket
    ensures d.uploadedAt.None? && d.id == id && d.caseId == caseId && d.s3Key == s3Key
  {
    DocumentRecord(id, caseId, khcDocumentId, category, title, None, s3Key, DefaultBucket,
                   fileSize, "application/pdf", UploadPending, None, false, Some(NotRequired),
                   false, now, now)
  }

  const DefaultModelVersion: string := "claude-3.5-sonnet"

  /** An analysis row as inserted with only the required columns given. */
  function NewAnalysis(id: Id, caseId: Id, advocateId: Id, now: int): (a: AnalysisRecord)
    ensures a.status == AnalysisPending && a.retryCount == 0 && a.modelVersion == DefaultModelVersion
    ensures a.analysis.None? && a.errorMessage.None? && a.caseId == caseId && a.advocateId == advocateId
  {
    AnalysisRecord(id, caseId, advocateId, AnalysisPending, DefaultModelVersion,
                   None, None, None, None, None, None, 0, now, now)
  }

  // ---------------------------------------------------------------------
  // The database and its constraints
  // ---------------------------------------------------------------------

  datatype Db = Db(
    users: seq<UserRecord>, cases: seq<CaseRecord>, documents: seq<DocumentRecord>,
    history: seq<HistoryRecord>, analyses: seq<AnalysisRecord>)

  /** No two elements share a key. */
  predicate UniqueBy<T, K(==)>(s: seq<T>, key: T -> K) {
    forall i, j :: 0 <= i < j < |s| ==> key(s[i]) != key(s[j])
  }

  lemma {:induction false} FilterKeepsUnique<T, K>(s: seq<T>, p: T -> bool, key: T -> K)
    requires UniqueBy(s, key)
    ensures UniqueBy(Filter(s, p), key)
  {
    if s != [] {
      FilterKeepsUnique(s[1..], p, key);
      var rest := Filter(s[1..], p);
      if p(s[0]) {
        var r := [s[0]] + rest;
        forall i, j | 0 <= i < j < |r| ensures key(r[i]) != key(r[j]) {
          if i == 0 {
            var k :| 0 <= k < |s[1..]| && s[1..][k] == r[j];
            assert s[k + 1] == r[j];
          } else {
            assert r[i] == rest[i - 1] && r[j] == rest[j - 1];
          }
        }
      }
    }
  }

  function UserIds(users: seq<UserRecord>): set<Id> { set u | u in users :: u.id }
  function CaseIds(cases: seq<CaseRecord>): set<Id> { set c | c in cases :: c.id }
  function DocumentIds(documents: seq<DocumentRecord>): set<Id> { set d | d in documents :: d.id }

  /** The history row names one of `ids` as its order document. */
  predicate NamesOneOf(h: HistoryRecord, ids: set<Id>) {
    h.orderDocumentId.Some? && h.orderDocumentId.value in ids
  }

  /** The ids of the documents filed under one of `caseIds`. */
  function DocumentsOfCases(documents: seq<DocumentRecord>, caseIds: set<Id>): set<Id> {
    set d | d in documents && d.caseId in caseIds :: d.id
  }

  /** The primary-key, unique and foreign-key constraints. A NULL mobile
      number may repeat; the other unique columns are NOT NULL. */
  predicate Consistent(db: Db) {
    && UniqueBy(db.users, (u: UserRecord) => u.id)
    && UniqueBy(db.users, (u: UserRecord) => u.email)
    && UniqueBy(db.users, (u: UserRecord) => u.khcAdvocateId)
    && (forall i, j :: 0 <= i < j < |db.users| && db.users[i].mobile.Some? ==> db.users[i].mobile != db.users[j].mobile)
    && UniqueBy(db.cases, (c: CaseRecord) => c.id)
    && UniqueBy(db.cases, (c: CaseRecord) => c.efilingNumber)
    && UniqueBy(db.documents, (d: DocumentRecord) => d.id)
    && UniqueBy(db.documents, (d: DocumentRecord) => d.s3Key)
    && UniqueBy(db.history, (h: HistoryRecord) => h.id)
    && UniqueBy(db.analyses, (a: AnalysisRecord) => a.id)
    && UniqueBy(db.analyses, (a: AnalysisRecord) => a.caseId)
    && (forall c :: c in db.cases ==> c.advocateId in UserIds(db.users))
    && (forall d :: d in db.documents ==> d.caseId in CaseIds(db.cases))
    && (forall h :: h in db.history ==> h.caseId in CaseIds(db.cases))
    && (forall h :: h in db.history && h.orderDocumentId.Some? ==> h.orderDocumentId.value in DocumentIds(db.documents))
    && (forall a :: a in db.analyses ==> a.caseId in CaseIds(db.cases) && a.advocateId in UserIds(db.users))
  }

  // ---------------------------------------------------------------------
  // Cascading deletes
  // ---------------------------------------------------------------------

  /** Deleting a case deletes its documents, history and analysis. The
      order-document key of `case_history` has no ON DELETE action, so the
      commit is refused (`None`, nothing deleted) when a history row of
      another case names one of the deleted documents. */
  function DeleteCase(db: Db, caseId: Id): (r: Option<Db>)
    requires Consistent(db)
    ensures r.None? <==>
      exists h :: h in db.history && h.caseId != caseId && NamesOneOf(h, DocumentsOfCases(db.documents, {caseId}))
    ensures r.Some? ==> Consistent(r.value)
    ensures r.Some? ==> r.value.users == db.users
    ensures r.Some? ==> forall c :: c in r.value.cases <==> c in db.cases && c.id != caseId
    ensures r.Some? ==> forall d :: d in r.value.documents <==> d in db.documents && d.caseId != caseId
    ensures r.Some? ==> forall h :: h in r.value.history <==> h in db.history && h.caseId != caseId
    ensures r.Some? ==> forall a :: a in r.value.analyses <==> a in db.analyses && a.caseId != caseId
  {
    var gone := DocumentsOfCases(db.documents, {caseId});
    if exists h :: h in db.history && h.caseId != caseId && NamesOneOf(h, gone) then None
    else
      var r := Db(db.users,
                  Filter(db.cases, (c: CaseRecord) => c.id != caseId),
                  Filter(db.documents, (d: DocumentRecord) => d.caseId != caseId),
                  Filter(db.history, (h: HistoryRecord) => h.caseId != caseId),
                  Filter(db.analyses, (a: AnalysisRecord) => a.caseId != caseId));
      DeleteCaseConsistent(db, caseId, r);
      Some(r)
  }

  lemma DeleteCaseConsistent(db: Db, caseId: Id, r: Db)
    requires Consistent(db)
    requires forall h :: h in db.history && h.caseId != caseId ==> !NamesOneOf(h, DocumentsOfCases(db.documents, {caseId}))
    requires r == Db(db.users,
                Filter(db.cases, (c: CaseRecord) => c.id != caseId),
                Filter(db.documents, (d: DocumentRecord) => d.caseId != caseId),
                Filter(db.history, (h: HistoryRecord) => h.caseId != caseId),
                Filter(db.analyses, (a: AnalysisRecord) => a.caseId != caseId))
    ensures Consistent(r)
    ensures forall c :: c in r.cases <==> c in db.cases && c.id != caseId
    ensures forall d :: d in r.documents <==> d in db.documents && d.caseId != caseId
    ensures forall h :: h in r.history <==> h in db.history && h.caseId != caseId
    ensures forall a :: a in r.analyses <==> a in db.analyses && a.caseId != caseId
  {
    DeleteCaseRows(db, caseId, r);
    DeleteCaseLinks(db, caseId, r);
  }

  /** Every surviving row still points at a surviving user, case and
      document. */
  lemma DeleteCaseLinks(db: Db, caseId: Id, r: Db)
    requires Consistent(db)
    requires forall h :: h in db.history && h.caseId != caseId ==> !NamesOneOf(h, DocumentsOfCases(db.documents, {caseId}))
    requires r == Db(db.users,
                Filter(db.cases, (c: CaseRecord) => c.id != caseId),
                Filter(db.documents, (d: DocumentRecord) => d.caseId != caseId),
                Filter(db.history, (h: HistoryRecord) => h.caseId != caseId),
                Filter(db.analyses, (a: AnalysisRecord) => a.caseId != caseId))
    ensures forall c :: c in r.cases ==> c.advocateId in UserIds(r.users)
    ensures forall d :: d in r.documents ==> d.caseId in CaseIds(r.cases)
    ensures forall h :: h in r.history ==> h.caseId in CaseIds(r.cases)
    ensures forall h :: h in r.history && h.orderDocumentId.Some? ==> h.orderDocumentId.value in DocumentIds(r.documents)
    ensures forall a :: a in r.analyses ==> a.caseId in CaseIds(r.cases) && a.advocateId in UserIds(r.users)
  {
    KeptCaseIds(db.cases, caseId);
    var gone := DocumentsOfCases(db.documents, {caseId});
    forall d | d in db.documents && d.id !in gone ensures d in r.documents {
      assert d.caseId != caseId;
    }
    KeptOrderDocuments(db, r, gone);
  }

  /** A kept history row names no removed document, so the order documents
      it names are all kept. */
  lemma KeptOrderDocuments(db: Db, r: Db, goneDocs: set<Id>)
    requires Consistent(db)
    requires forall d :: d in db.documents && d.id !in goneDocs ==> d in r.documents
    requires forall h :: h in r.history ==> h in db.history && !NamesOneOf(h, goneDocs)
    ensures forall h :: h in r.history && h.orderDocumentId.Some? ==> h.orderDocumentId.value in DocumentIds(r.documents)
  {
    forall h | h in r.history && h.orderDocumentId.Some?
      ensures h.orderDocumentId.value in DocumentIds(r.documents)
    {
      var d :| d in db.documents && d.id == h.orderDocumentId.value;
      assert d in r.documents;
    }
  }

  /** The tables the cascade filters keep their unique columns. */
  lemma DeleteCaseRows(db: Db, caseId: Id, r: Db)
    requires Consistent(db)
    requires r.cases == Filter(db.cases, (c: CaseRecord) => c.id != caseId)
    requires r.documents == Filter(db.documents, (d: DocumentRecord) => d.caseId != caseId)
    requires r.history == Filter(db.history, (h: HistoryRecord) => h.caseId != caseId)
    requires r.analyses == Filter(db.analyses, (a: AnalysisRecord) => a.caseId != caseId)
    ensures UniqueBy(r.cases, (c: CaseRecord) => c.id)
    ensures UniqueBy(r.cases, (c: CaseRecord) => c.efilingNumber)
    ensures UniqueBy(r.documents, (d: DocumentRecord) => d.id)
    ensures UniqueBy(r.documents, (d: DocumentRecord) => d.s3Key)
    ensures UniqueBy(r.history, (h: HistoryRecord) => h.id)
    ensures UniqueBy(r.analyses, (a: AnalysisRecord) => a.id)
    ensures UniqueBy(r.analyses, (a: AnalysisRecord) => a.caseId)
  {
    FilterKeepsUnique(db.cases, (c: CaseRecord) => c.id != caseId, (c: CaseRecord) => c.id);
    FilterKeepsUnique(db.cases, (c: CaseRecord) => c.id != caseId, (c: CaseRecord) => c.efilingNumber);
    FilterKeepsUnique(db.documents, (d: DocumentRecord) => d.caseId != caseId, (d: DocumentRecord) => d.id);
    FilterKeepsUnique(db.documents, (d: DocumentRecord) => d.caseId != caseId, (d: DocumentRecord) => d.s3Key);
    FilterKeepsUnique(db.history, (h: HistoryRecord) => h.caseId != caseId, (h: HistoryRecord) => h.id);
    FilterKeepsUnique(db.analyses, (a: AnalysisRecord) => a.caseId != caseId, (a: AnalysisRecord) => a.id);
    FilterKeepsUnique(db.analyses, (a: AnalysisRecord) => a.caseId != caseId, (a: AnalysisRecord) => a.caseId);
  }

  /** Every id other than the deleted one is still a case id. */
  lemma KeptCaseIds(cases: seq<CaseRecord>, caseId: Id)
    ensures forall x :: x in CaseIds(cases) && x != caseId ==> x in CaseIds(Filter(cases, (c: CaseRecord) => c.id != caseId))
  {
    forall x | x in CaseIds(cases) && x != caseId
      ensures x in CaseIds(Filter(cases, (c: CaseRecord) => c.id != caseId))
    {
      var c :| c in cases && c.id == x;
      var i :| 0 <= i < |cases| && cases[i] == c;
      assert cases[i] in Filter(cases, (c: CaseRecord) => c.id != caseId);
    }
  }

  /** The ids of the cases an advocate owns. */
  function CasesOf(cases: seq<CaseRecord>, userId: Id): set<Id> {
    set c | c in cases && c.advocateId == userId :: c.id
  }

  /** Deleting a user deletes their cases (and with them those cases'
      documents, history and analyses) and their analyses. As for a case,
      the commit is refused (`None`) when a history row of someone else's
      case names one of the deleted documents. */
  function DeleteUser(db: Db, userId: Id): (r: Option<Db>)
    requires Consistent(db)
    ensures r.None? <==> exists h :: (h in db.history && h.caseId !in CasesOf(db.cases, userId)
      && NamesOneOf(h, DocumentsOfCases(db.documents, CasesOf(db.cases, userId))))
    ensures r.Some? ==> Consistent(r.value)
    ensures r.Some? ==> forall u :: u in r.value.users <==> u in db.users && u.id != userId
    ensures r.Some? ==> forall c :: c in r.value.cases <==> c in db.cases && c.advocateId != userId
    ensures r.Some? ==> forall d :: d in r.value.documents <==> d in db.documents && d.caseId !in CasesOf(db.cases, userId)
    ensures r.Some? ==> forall h :: h in r.value.history <==> h in db.history && h.caseId !in CasesOf(db.cases, userId)
    ensures r.Some? ==> forall a :: a in r.value.analyses <==>
      a in db.analyses && a.advocateId != userId && a.caseId !in CasesOf(db.cases, userId)
  {
    var gone := CasesOf(db.cases, userId);
    if exists h :: h in db.history && h.caseId !in gone && NamesOneOf(h, DocumentsOfCases(db.documents, gone)) then None
    else
      var r := Db(Filter(db.users, (u: UserRecord) => u.id != userId),
                  Filter(db.cases, (c: CaseRecord) => c.advocateId != userId),
                  Filter(db.documents, (d: DocumentRecord) => d.caseId !in gone),
                  Filter(db.history, (h: HistoryRecord) => h.caseId !in gone),
                  Filter(db.analyses, (a: AnalysisRecord) => a.advocateId != userId && a.caseId !in gone));
      DeleteUserConsistent(db, userId, r);
      Some(r)
  }

  lemma DeleteUserConsistent(db: Db, userId: Id, r: Db)
    requires Consistent(db)
    requires forall h :: h in db.history && h.caseId !in CasesOf(db.cases, userId) ==>
      !NamesOneOf(h, DocumentsOfCases(db.documents, CasesOf(db.cases, userId)))
    requires r == Db(Filter(db.users, (u: UserRecord) => u.id != userId),
                Filter(db.cases, (c: CaseRecord) => c.advocateId != userId),
                Filter(db.documents, (d: DocumentRecord) => d.caseId !in CasesOf(db.cases, userId)),
                Filter(db.history, (h: HistoryRecord) => h.caseId !in CasesOf(db.cases, userId)),
                Filter(db.analyses, (a: AnalysisRecord) => a.advocateId != userId && a.caseId !in CasesOf(db.cases, userId)))
    ensures Consistent(r)
  {
    DeleteUserUsers(db, userId, r);
    DeleteUserRows(db, userId, r);
    DeleteUserLinks(db, userId, r);
    var gone := DocumentsOfCases(db.documents, CasesOf(db.cases, userId));
    forall d | d in db.documents && d.id !in gone ensures d in r.documents {
      assert d.caseId !in CasesOf(db.cases, userId);
    }
    KeptOrderDocuments(db, r, gone);
  }

  /** The user table keeps its unique columns when the user is removed. */
  lemma DeleteUserUsers(db: Db, userId: Id, r: Db)
    requires Consistent(db)
    requires r.users == Filter(db.users, (u: UserRecord) => u.id != userId)
    ensures UniqueBy(r.users, (u: UserRecord) => u.id)
    ensures UniqueBy(r.users, (u: UserRecord) => u.email)
    ensures UniqueBy(r.users, (u: UserRecord) => u.khcAdvocateId)
    ensures forall i, j :: 0 <= i < j < |r.users| && r.users[i].mobile.Some? ==> r.users[i].mobile != r.users[j].mobile
  {
    var keepU := (u: UserRecord) => u.id != userId;
    FilterKeepsUnique(db.users, keepU, (u: UserRecord) => u.id);
    FilterKeepsUnique(db.users, keepU, (u: UserRecord) => u.email);
    FilterKeepsUnique(db.users, keepU, (u: UserRecord) => u.khcAdvocateId);
    MobilesStayUnique(db.users, r.users);
  }

  /** The other tables keep their unique columns under the cascade. */
  lemma DeleteUserRows(db: Db, userId: Id, r: Db)
    requires Consistent(db)
    requires r.cases == Filter(db.cases, (c: CaseRecord) => c.advocateId != userId)
    requires r.documents == Filter(db.documents, (d: DocumentRecord) => d.caseId !in CasesOf(db.cases, userId))
    requires r.history == Filter(db.history, (h: HistoryRecord) => h.caseId !in CasesOf(db.cases, userId))
    requires r.analyses == Filter(db.analyses, (a: AnalysisRecord) => a.advocateId != userId && a.caseId !in CasesOf(db.cases, userId))
    ensures UniqueBy(r.cases, (c: CaseRecord) => c.id)
    ensures UniqueBy(r.cases, (c: CaseRecord) => c.efilingNumber)
    ensures UniqueBy(r.documents, (d: DocumentRecord) => d.id)
    ensures UniqueBy(r.documents, (d: DocumentRecord) => d.s3Key)
    ensures UniqueBy(r.history, (h: HistoryRecord) => h.id)
    ensures UniqueBy(r.analyses, (a: AnalysisRecord) => a.id)
    ensures UniqueBy(r.analyses, (a: AnalysisRecord) => a.caseId)
  {
    var gone := CasesOf(db.cases, userId);
    var keepC := (c: CaseRecord) => c.advocateId != userId;
    FilterKeepsUnique(db.cases, keepC, (c: CaseRecord) => c.id);
    FilterKeepsUnique(db.cases, keepC, (c: CaseRecord) => c.efilingNumber);
    FilterKeepsUnique(db.documents, (d: DocumentRecord) => d.caseId !in gone, (d: DocumentRecord) => d.id);
    FilterKeepsUnique(db.documents, (d: DocumentRecord) => d.caseId !in gone, (d: DocumentRecord) => d.s3Key);
    FilterKeepsUnique(db.history, (h: HistoryRecord) => h.caseId !in gone, (h: HistoryRecord) => h.id);
    FilterKeepsUnique(db.analyses, (a: AnalysisRecord) => a.advocateId != userId && a.caseId !in gone, (a: AnalysisRecord) => a.id);
    FilterKeepsUnique(db.analyses, (a: AnalysisRecord) => a.advocateId != userId && a.caseId !in gone, (a: AnalysisRecord) => a.caseId);
  }

  /** Every surviving row still points at a surviving user and case. */
  lemma DeleteUserLinks(db: Db, userId: Id, r: Db)
    requires Consistent(db)
    requires r == Db(Filter(db.users, (u: UserRecord) => u.id != userId),
                Filter(db.cases, (c: CaseRecord) => c.advocateId != userId),
                Filter(db.documents, (d: DocumentRecord) => d.caseId !in CasesOf(db.cases, userId)),
                Filter(db.history, (h: HistoryRecord) => h.caseId !in CasesOf(db.cases, userId)),
                Filter(db.analyses, (a: AnalysisRecord) => a.advocateId != userId && a.caseId !in CasesOf(db.cases, userId)))
    ensures forall c :: c in r.cases ==> c.advocateId in UserIds(r.users)
    ensures forall d :: d in r.documents ==> d.caseId in CaseIds(r.cases)
    ensures forall h :: h in r.history ==> h.caseId in CaseIds(r.cases)
    ensures forall a :: a in r.analyses ==> a.caseId in CaseIds(r.cases) && a.advocateId in UserIds(r.users)
  {
    KeptUserIds(db.users, userId);
    KeptOwnedCaseIds(db.cases, userId);
  }

  /** Every id other than the deleted user's is still a user id. */
  lemma KeptUserIds(users: seq<UserRecord>, userId: Id)
    ensures forall x :: x in UserIds(users) && x != userId ==> x in UserIds(Filter(users, (u: UserRecord) => u.id != userId))
  {
    forall x | x in UserIds(users) && x != userId
      ensures x in UserIds(Filter(users, (u: UserRecord) => u.id != userId))
    {
      var u :| u in users && u.id == x;
      var i :| 0 <= i < |users| && users[i] == u;
      assert users[i] in Filter(users, (u: UserRecord) => u.id != userId);
    }
  }

  /** Every case id not owned by the deleted user is still a case id. */
  lemma KeptOwnedCaseIds(cases: seq<CaseRecord>, userId: Id)
    ensures forall x :: x in CaseIds(cases) && x !in CasesOf(cases, userId) ==>
      x in CaseIds(Filter(cases, (c: CaseRecord) => c.advocateId != userId))
  {
    forall x | x in CaseIds(cases) && x !in CasesOf(cases, userId)
      ensures x in CaseIds(Filter(cases, (c: CaseRecord) => c.advocateId != userId))
    {
      var c :| c in cases && c.id == x;
      var i :| 0 <= i < |cases| && cases[i] == c;
      assert cases[i] in Filter(cases, (c: CaseRecord) => c.advocateId != userId);
    }
  }

  /** A mobile number present on one kept user is on no other kept user. */
  lemma MobilesStayUnique(users: seq<UserRecord>, kept: seq<UserRecord>)
    requires forall i, j :: 0 <= i < j < |users| && users[i].mobile.Some? ==> users[i].mobile != users[j].mobile
    requires forall i :: 0 <= i < |kept| ==> kept[i] in users
    requires UniqueBy(users, (u: UserRecord) => u.id) && UniqueBy(kept, (u: UserRecord) => u.id)
    ensures forall i, j :: 0 <= i < j < |kept| && kept[i].mobile.Some? ==> kept[i].mobile != kept[j].mobile
  {
    forall i, j | 0 <= i < j < |kept| && kept[i].mobile.Some? ensures kept[i].mobile != kept[j].mobile {
      var a :| 0 <= a < |users| && users[a] == kept[i];
      var b :| 0 <= b < |users| && users[b] == kept[j];
      var key := (u: UserRecord) => u.id;
      assert key(kept[i]) != key(kept[j]);
      assert a != b;
      if a > b && kept[j].mobile.Some? {
        // the constraint is stated from the earlier row's side
        assert users[b].mobile != users[a].mobile;
      }
    }
  }

  // ---------------------------------------------------------------------
  // Lookups
  // ---------------------------------------------------------------------

  /** `db.query(Case).filter(Case.id == id).first()`. */
  function FindCase(cases: seq<CaseRecord>, id: Id): (r: Option<CaseRecord>)
    ensures r.None? <==> id !in CaseIds(cases)
    ensures r.Some? ==> r.value in cases && r.value.id == id
  {
    NoIndexNoId(cases, id);
    First(cases, (c: CaseRecord) => c.id == id)
  }

  lemma NoIndexNoId(cases: seq<CaseRecord>, id: Id)
    ensures (forall j :: 0 <= j < |cases| ==> cases[j].id != id) <==> id !in CaseIds(cases)
  {
    if id in CaseIds(cases) {
      var c :| c in cases && c.id == id;
      var i :| 0 <= i < |cases| && cases[i] == c;
    }
  }

  /** `db.query(Document).filter(Document.id == id).first()`. */
  function FindDocument(documents: seq<DocumentRecord>, id: Id): (r: Option<DocumentRecord>)
    ensures r.None? <==> forall i :: 0 <= i < |documents| ==> documents[i].id != id
    ensures r.Some? ==> r.value in documents && r.value.id == id
  {
    First(documents, (d: DocumentRecord) => d.id == id)
  }

  /** `db.query(User).filter(User.email == email).first()`. */
  function FindUserByEmail(users: seq<UserRecord>, email: string): (r: Option<UserRecord>)
    ensures r.None? <==> forall i :: 0 <= i < |users| ==> users[i].email != email
    ensures r.Some? ==> r.value in users && r.value.email == email
  {
    First(users, (u: UserRecord) => u.email == email)
  }

  // ---------------------------------------------------------------------
  // The session: the tables as mutable state
  // ---------------------------------------------------------------------

  /** The database as the endpoints see it through their session: each
      table is a sequence of rows the endpoints read and rewrite. */
  class Database {
    var users: seq<UserRecord>
    var cases: seq<CaseRecord>
    var documents: seq<DocumentRecord>
    var history: seq<HistoryRecord>
    var analyses: seq<AnalysisRecord>

    function Snapshot(): Db
      reads this
    {
      Db(users, cases, documents, history, analyses)
    }

    constructor(db: Db)
      ensures Snapshot() == db
    {
      users := db.users;
      cases := db.cases;
      documents := db.documents;
      history := db.history;
      analyses := db.analyses;
    }
  }
}
