/** The document endpoints of the FastAPI backend
    (backend/app/api/v1/endpoints/documents.py): the caller's documents
    (those of cases they own) listed, fetched, updated, deleted unless under
    legal hold, confirmed after upload, and counted. Every single-document
    endpoint answers 404 for an unknown id before 403 for another advocate's
    document. */
module DocumentEndpoints {
  import opened Common
  import opened Models
  import Order
  import Schemas
  import CaseEndpoints

  const DocumentNotFound: Failure := Failure(404, "Document not found")

  /** HTTP 423 Locked (section 11.3 of RFC 4918). */
  const DocumentLocked: Failure := Failure(423, "Document is locked and cannot be deleted")

  // ---------------------------------------------------------------------
  // Ownership
  // ---------------------------------------------------------------------

  /** The document belongs to a case the caller owns. */
  predicate OwnedBy(cases: seq<CaseRecord>, d: DocumentRecord, userId: Id) {
    var c := FindCase(cases, d.caseId);
    c.Some? && c.value.advocateId == userId
  }

  /** Locates the first document `pick` selects for `userId`: 404 when there is
      none, else 403 when its case belongs to someone else (with the given
      message). A document whose case row is missing makes the endpoint
      fail reading `case.advocate_id`; the foreign key rules that out. */
  function AuthorizeBy(db: Db, pick: DocumentRecord -> bool, userId: Id, forbidden: string): (r: Result<nat, Failure>)
    ensures r == Err(DocumentNotFound) <==> forall j :: 0 <= j < |db.documents| ==> !pick(db.documents[j])
    ensures r.Ok? ==> r.value == FirstIndex(db.documents, pick) && OwnedBy(db.cases, db.documents[r.value], userId)
    ensures r.Err? && r.error.status == 403 ==>
      r.error.detail == forbidden && FirstIndex(db.documents, pick) >= 0
      && !OwnedBy(db.cases, db.documents[FirstIndex(db.documents, pick)], userId)
    ensures Consistent(db) ==> r.Err? ==> r.error.status in {403, 404}
  {
    var i := FirstIndex(db.documents, pick);
    if i < 0 then Err(DocumentNotFound)
    else
      var c := FindCase(db.cases, db.documents[i].caseId);
      if c.None? then
        ParentCaseExists(db, i);
        Err(CaseEndpoints.ServerError)
      else if c.value.advocateId != userId then Err(Failure(403, forbidden))
      else Ok(i)
  }

  lemma ParentCaseExists(db: Db, i: nat)
    requires i < |db.documents|
    ensures Consistent(db) ==> FindCase(db.cases, db.documents[i].caseId).Some?
  {
    if Consistent(db) {
      assert db.documents[i] in db.documents;
    }
  }

  function Authorize(db: Db, documentId: Id, userId: Id, forbidden: string): (r: Result<nat, Failure>)
    ensures r == Err(DocumentNotFound) <==> forall j :: 0 <= j < |db.documents| ==> db.documents[j].id != documentId
    ensures r.Ok? ==> r.value < |db.documents| && db.documents[r.value].id == documentId
                      && OwnedBy(db.cases, db.documents[r.value], userId)
    ensures r.Err? && r.error.status == 403 ==> r.error.detail == forbidden
    ensures Consistent(db) ==> r.Err? ==> r.error.status in {403, 404}
  {
    AuthorizeBy(db, (d: DocumentRecord) => d.id == documentId, userId, forbidden)
  }

  // ---------------------------------------------------------------------
  // Listing
  // ---------------------------------------------------------------------

  function CreatedAtKey(d: DocumentRecord): Order.Key { Order.KInt(d.createdAt) }

  /** The listing's optional filters; an empty category is falsy. */
  predicate PassesFilters(d: DocumentRecord, caseId: Option<Id>, category: Option<string>) {
    && (caseId.Some? ==> d.caseId == caseId.value)
    && (category.Some? && category.value != "" ==> d.category.Name() == category.value)
  }

  /** A category filter naming no `DocumentCategory` label: PostgreSQL
      refuses to compare the enum column with it, and the query fails. */
  predicate UnknownCategory(category: Option<string>) {
    category.Some? && category.value != "" && CategoryFromName(category.value).None?
  }

  /** Every row the listing would return for some window, newest first. */
  function Listing(db: Db, userId: Id, caseId: Option<Id>, category: Option<string>): seq<DocumentRecord> {
    Order.SortBy(Filter(db.documents,
      (d: DocumentRecord) => OwnedBy(db.cases, d, userId) && PassesFilters(d, caseId, category)), CreatedAtKey, true)
  }

  /** `GET /documents/`: newest first, `skip` rows skipped, at most `limit`
      (1..100) returned. The parameter bounds give 422 first; an unknown
      category then fails the query. */
  function GetDocuments(db: Db, userId: Id, caseId: Option<Id>, category: Option<string>,
                        skip: int, limit: int): (r: Result<seq<DocumentRecord>, Failure>)
    ensures r.Err? <==> !(skip >= 0 && 1 <= limit <= 100) || UnknownCategory(category)
    ensures !(skip >= 0 && 1 <= limit <= 100) ==> r == Err(CaseEndpoints.InvalidQuery)
    ensures skip >= 0 && 1 <= limit <= 100 && UnknownCategory(category) ==> r == Err(CaseEndpoints.ServerError)
    ensures r.Ok? ==> r.value == Order.Page(Listing(db, userId, caseId, category), skip, limit)
    ensures r.Ok? ==> |r.value| <= limit
    ensures r.Ok? ==> forall i :: 0 <= i < |r.value| ==>
      r.value[i] in db.documents && OwnedBy(db.cases, r.value[i], userId) && PassesFilters(r.value[i], caseId, category)
  {
    if !(skip >= 0 && 1 <= limit <= 100) then Err(CaseEndpoints.InvalidQuery)
    else if UnknownCategory(category) then Err(CaseEndpoints.ServerError)
    else
      var rows := Filter(db.documents,
        (d: DocumentRecord) => OwnedBy(db.cases, d, userId) && PassesFilters(d, caseId, category));
      SortedMembers(rows);
      FilterMembers(db.documents,
        (d: DocumentRecord) => OwnedBy(db.cases, d, userId) && PassesFilters(d, caseId, category));
      Ok(Order.Page(Order.SortBy(rows, CreatedAtKey, true), skip, limit))
  }

  lemma SortedMembers(rows: seq<DocumentRecord>)
    ensures var s := Order.SortBy(rows, CreatedAtKey, true);
      && (forall d :: d in s <==> d in rows)
      && Order.SortedBy(s, CreatedAtKey, true)
      && |s| == |rows|
  {
    Order.SortByCorrect(rows, CreatedAtKey, true);
    var s := Order.SortBy(rows, CreatedAtKey, true);
    forall d ensures d in s <==> d in rows {
      assert d in s <==> d in multiset(s);
      assert d in rows <==> d in multiset(rows);
    }
  }

  /** The listing holds exactly the caller's documents that pass the
      filters, newest first. */
  lemma ListingCorrect(db: Db, userId: Id, caseId: Option<Id>, category: Option<string>)
    ensures var all := Listing(db, userId, caseId, category);
      && Order.SortedBy(all, CreatedAtKey, true)
      && (forall d :: d in all <==> d in db.documents && OwnedBy(db.cases, d, userId) && PassesFilters(d, caseId, category))
  {
    var rows := Filter(db.documents,
      (d: DocumentRecord) => OwnedBy(db.cases, d, userId) && PassesFilters(d, caseId, category));
    SortedMembers(rows);
    FilterMembers(db.documents,
      (d: DocumentRecord) => OwnedBy(db.cases, d, userId) && PassesFilters(d, caseId, category));
  }

  /** Each window of the listing is newest first. */
  lemma GetDocumentsNewestFirst(db: Db, userId: Id, caseId: Option<Id>, category: Option<string>, skip: int, limit: int)
    ensures var r := GetDocuments(db, userId, caseId, category, skip, limit);
      r.Ok? ==> Order.SortedBy(r.value, CreatedAtKey, true)
  {
    if skip >= 0 && 1 <= limit <= 100 && !UnknownCategory(category) {
      ListingCorrect(db, userId, caseId, category);
      Order.PageSorted(Listing(db, userId, caseId, category), skip, limit, CreatedAtKey, true);
    }
  }

  /** Paging loses nothing: every document of the caller that passes the
      filters is returned in some window, for any valid `limit`. */
  lemma EveryDocumentInSomeWindow(db: Db, userId: Id, caseId: Option<Id>, category: Option<string>,
                                  limit: int, d: DocumentRecord)
    requires 1 <= limit <= 100
    requires d in db.documents && OwnedBy(db.cases, d, userId) && PassesFilters(d, caseId, category)
    ensures exists skip :: skip >= 0 && var r := GetDocuments(db, userId, caseId, category, skip, limit); r.Ok? && d in r.value
  {
    assert !UnknownCategory(category) by {
      if category.Some? && category.value != "" {
        assert d.category.Name() == category.value;
      }
    }
    ListingCorrect(db, userId, caseId, category);
    var all := Listing(db, userId, caseId, category);
    var k :| 0 <= k < |all| && all[k] == d;
    Order.PageCovers(all, k, k, limit);
    var r := GetDocuments(db, userId, caseId, category, k, limit);
    assert r.Ok? && r.value[0] == d;
  }

  /** `GET /documents/by-case/{case_id}`: the case's ownership is checked
      like the case endpoints do; then all its documents, newest first. */
  function GetDocumentsByCase(db: Db, caseId: Id, userId: Id): (r: Result<seq<DocumentRecord>, Failure>)
    ensures r.Err? <==> CaseEndpoints.Authorize(db.cases, caseId, userId, "access").Err?
    ensures r.Err? ==> r.error == CaseEndpoints.Authorize(db.cases, caseId, userId, "access").error
    ensures r.Ok? ==> forall d :: d in r.value <==> d in db.documents && d.caseId == caseId
    ensures r.Ok? ==> Order.SortedBy(r.value, CreatedAtKey, true)
  {
    var auth := CaseEndpoints.Authorize(db.cases, caseId, userId, "access");
    if auth.Err? then Err(auth.error)
    else
      var rows := Filter(db.documents, (d: DocumentRecord) => d.caseId == caseId);
      CaseEndpoints.DocumentsOfCase(db.documents, caseId);
      SortedMembers(rows);
      Ok(Order.SortBy(rows, CreatedAtKey, true))
  }

  // ---------------------------------------------------------------------
  // One document
  // ---------------------------------------------------------------------

  /** `GET /documents/{document_id}`. */
  function GetDocument(db: Db, documentId: Id, userId: Id): (r: Result<DocumentRecord, Failure>)
    ensures r.Ok? ==> r.value in db.documents && r.value.id == documentId && OwnedBy(db.cases, r.value, userId)
    ensures r.Err? <==> Authorize(db, documentId, userId, "Not authorized to access this document").Err?
    ensures r.Err? ==> r.error == Authorize(db, documentId, userId, "Not authorized to access this document").error
  {
    var auth := Authorize(db, documentId, userId, "Not authorized to access this document");
    if auth.Err? then Err(auth.error) else Ok(db.documents[auth.value])
  }

  datatype PresignedUrl = PresignedUrl(url: string, expiresIn: int)

  /** Selects the documents stored under `s3Key`. */
  function HasKey(s3Key: string): DocumentRecord -> bool {
    (d: DocumentRecord) => d.s3Key == s3Key
  }

  const PresignForbidden: string := "Not authorized to access this document"

  /** `POST /documents/presigned-url`: looks the document up by key, then
      returns a URL of the fixed shape. */
  function GetPresignedUrl(db: Db, s3Key: string, expiresIn: int, userId: Id): (r: Result<PresignedUrl, Failure>)
    ensures !(60 <= expiresIn <= 86400) ==> r == Err(CaseEndpoints.InvalidQuery)
    ensures r.Ok? ==> r.value.expiresIn == expiresIn && 60 <= expiresIn <= 86400
    ensures r.Ok? ==> exists d :: (d in db.documents && d.s3Key == s3Key && OwnedBy(db.cases, d, userId)
      && r.value.url == "https://" + d.s3Bucket + ".s3.amazonaws.com/" + s3Key + "?expires=" + IntText(expiresIn))
    ensures 60 <= expiresIn <= 86400 && (forall j :: 0 <= j < |db.documents| ==> db.documents[j].s3Key != s3Key)
      ==> r == Err(DocumentNotFound)
    ensures 60 <= expiresIn <= 86400 ==>
      (r.Err? <==> AuthorizeBy(db, HasKey(s3Key), userId, PresignForbidden).Err?)
    ensures 60 <= expiresIn <= 86400 && r.Err? ==> r.error == AuthorizeBy(db, HasKey(s3Key), userId, PresignForbidden).error
  {
    if !(60 <= expiresIn <= 86400) then Err(CaseEndpoints.InvalidQuery)
    else
      var auth := AuthorizeBy(db, HasKey(s3Key), userId, PresignForbidden);
      if auth.Err? then Err(auth.error)
      else
        var d := db.documents[auth.value];
        Ok(PresignedUrl("https://" + d.s3Bucket + ".s3.amazonaws.com/" + s3Key + "?expires=" + IntText(expiresIn), expiresIn))
  }


  // ---------------------------------------------------------------------
  // Changes
  // ---------------------------------------------------------------------

  /** The columns `PATCH /documents/{document_id}` may set (`exclude_unset`). */
  datatype DocumentUpdate = DocumentUpdate(
    title: CaseEndpoints.Patch<Option<string>>,
    category: CaseEndpoints.Patch<Option<string>>,
    description: CaseEndpoints.Patch<Option<string>>)

  /** The title as the schema sees it: absent and null both skip the check. */
  function SuppliedTitle(u: DocumentUpdate): Option<string> {
    if u.title.SetTo? then u.title.value else None
  }

  /** The row after the update, or None when the database refuses it (NULL
      in a NOT NULL column, or a category that is not an enum name). */
  function ApplyUpdate(d: DocumentRecord, u: DocumentUpdate, now: int): (r: Option<DocumentRecord>)
    ensures r.None? <==> ((u.title.SetTo? && u.title.value.None?)
      || (u.category.SetTo? && (u.category.value.None? || CategoryFromName(u.category.value.value).None?)))
    ensures r.Some? ==> r.value == d.(title := r.value.title, category := r.value.category,
                                      description := r.value.description, updatedAt := now)
    ensures r.Some? && u.title.SetTo? ==> r.value.title == u.title.value.value
    ensures r.Some? && u.title.Unset? ==> r.value.title == d.title
    ensures r.Some? && u.category.SetTo? ==> r.value.category.Name() == u.category.value.value
    ensures r.Some? && u.category.Unset? ==> r.value.category == d.category
    ensures r.Some? ==> r.value.description == CaseEndpoints.PatchOr(u.description, d.description)
  {
    if u.title.SetTo? && u.title.value.None? then None
    else if u.category.SetTo? && (u.category.value.None? || CategoryFromName(u.category.value.value).None?) then None
    else
      var title := if u.title.SetTo? then u.title.value.value else d.title;
      var category := if u.category.SetTo? then CategoryFromName(u.category.value.value).value else d.category;
      Some(d.(title := title, category := category,
              description := CaseEndpoints.PatchOr(u.description, d.description), updatedAt := now))
  }

  /** Rewriting a document row without touching its id, case or key keeps
      every constraint. */
  lemma ReplaceDocumentKeepsConsistent(db: Db, i: int, d: DocumentRecord)
    requires Consistent(db) && 0 <= i < |db.documents|
    requires d.id == db.documents[i].id && d.caseId == db.documents[i].caseId && d.s3Key == db.documents[i].s3Key
    ensures Consistent(db.(documents := db.documents[i := d]))
  {
    var ds := db.documents[i := d];
    forall e | e in ds ensures e.caseId in CaseIds(db.cases) {
      var k :| 0 <= k < |ds| && ds[k] == e;
      assert db.documents[k] in db.documents;
    }
    var idKey := (x: DocumentRecord) => x.id;
    var keyKey := (x: DocumentRecord) => x.s3Key;
    forall j, k | 0 <= j < k < |ds| ensures idKey(ds[j]) != idKey(ds[k]) && keyKey(ds[j]) != keyKey(ds[k]) {
      assert idKey(db.documents[j]) != idKey(db.documents[k]);
      assert keyKey(db.documents[j]) != keyKey(db.documents[k]);
    }
    forall x | x in DocumentIds(db.documents) ensures x in DocumentIds(ds) {
      var e :| e in db.documents && e.id == x;
      var k :| 0 <= k < |db.documents| && db.documents[k] == e;
      assert ds[k] in ds && ds[k].id == x;
    }
  }

  /** `PATCH /documents/{document_id}`. The request body is validated (422)
      before the handler runs. */
  method UpdateDocument(db: Database, documentId: Id, userId: Id, u: DocumentUpdate, now: int)
    returns (r: Result<DocumentRecord, Failure>)
    modifies db
    ensures Schemas.ValidateDocumentUpdate(SuppliedTitle(u)) != map[] ==>
      r == Err(CaseEndpoints.InvalidQuery) && db.Snapshot() == old(db.Snapshot())
    ensures Schemas.ValidateDocumentUpdate(SuppliedTitle(u)) == map[] ==>
      var auth := Authorize(old(db.Snapshot()), documentId, userId, "Not authorized to modify this document");
      && (auth.Err? ==> r == Err(auth.error) && db.Snapshot() == old(db.Snapshot()))
      && (auth.Ok? && ApplyUpdate(old(db.documents)[auth.value], u, now).None? ==>
            r == Err(CaseEndpoints.ServerError) && db.Snapshot() == old(db.Snapshot()))
      && (auth.Ok? && ApplyUpdate(old(db.documents)[auth.value], u, now).Some? ==>
            var d := ApplyUpdate(old(db.documents)[auth.value], u, now).value;
            r == Ok(d) && db.Snapshot() == old(db.Snapshot()).(documents := old(db.documents)[auth.value := d]))
    ensures Consistent(old(db.Snapshot())) ==> Consistent(db.Snapshot())
  {
    if Schemas.ValidateDocumentUpdate(SuppliedTitle(u)) != map[] {
      return Err(CaseEndpoints.InvalidQuery);
    }
    var auth := Authorize(db.Snapshot(), documentId, userId, "Not authorized to modify this document");
    if auth.Err? {
      return Err(auth.error);
    }
    var i := auth.value;
    var d := ApplyUpdate(db.documents[i], u, now);
    if d.None? {
      return Err(CaseEndpoints.ServerError);
    }
    ghost var before := db.Snapshot();
    if Consistent(before) {
      ReplaceDocumentKeepsConsistent(before, i, d.value);
    }
    db.documents := db.documents[i := d.value];
    assert db.Snapshot() == before.(documents := before.documents[i := d.value]);
    r := Ok(d.value);
  }

  /** The answer to a successful delete. */
  datatype Deleted = Deleted(message: string, documentId: Id)

  /** The table without row `i`. */
  function RemoveAt<T>(s: seq<T>, i: nat): (r: seq<T>)
    requires i < |s|
    ensures |r| == |s| - 1
    ensures forall k :: 0 <= k < i ==> r[k] == s[k]
    ensures forall k :: i <= k < |r| ==> r[k] == s[k + 1]
  {
    s[..i] + s[i + 1..]
  }

  /** Some history row names the document as its order document. */
  predicate Referenced(db: Db, documentId: Id) {
    exists h :: h in db.history && h.orderDocumentId == Some(documentId)
  }

  /** Removing a document row that no history row names keeps every
      constraint. */
  lemma RemoveDocumentKeepsConsistent(db: Db, i: nat)
    requires Consistent(db) && i < |db.documents|
    requires !Referenced(db, db.documents[i].id)
    ensures Consistent(db.(documents := RemoveAt(db.documents, i)))
  {
    var ds := RemoveAt(db.documents, i);
    forall e | e in ds ensures e.caseId in CaseIds(db.cases) {
      var k :| 0 <= k < |ds| && ds[k] == e;
      if k < i { assert db.documents[k] in db.documents; } else { assert db.documents[k + 1] in db.documents; }
    }
    var idKey := (x: DocumentRecord) => x.id;
    var keyKey := (x: DocumentRecord) => x.s3Key;
    forall j, k | 0 <= j < k < |ds| ensures idKey(ds[j]) != idKey(ds[k]) && keyKey(ds[j]) != keyKey(ds[k]) {
      var j' := if j < i then j else j + 1;
      var k' := if k < i then k else k + 1;
      assert ds[j] == db.documents[j'] && ds[k] == db.documents[k'];
      assert idKey(db.documents[j']) != idKey(db.documents[k']);
      assert keyKey(db.documents[j']) != keyKey(db.documents[k']);
    }
    forall h | h in db.history && h.orderDocumentId.Some? ensures h.orderDocumentId.value in DocumentIds(ds) {
      var e :| e in db.documents && e.id == h.orderDocumentId.value;
      var k :| 0 <= k < |db.documents| && db.documents[k] == e;
      assert k != i;
      if k < i { assert ds[k] == e; } else { assert ds[k - 1] == e; }
    }
  }

  /** `DELETE /documents/{document_id}`: 404, then 403, then 423 for a
      locked document; otherwise the row is removed, unless a history row
      names it: that key has no ON DELETE action, so the commit fails and
      the request ends in a server error with the row kept. */
  method DeleteDocument(db: Database, documentId: Id, userId: Id) returns (r: Result<Deleted, Failure>)
    modifies db
    ensures var auth := Authorize(old(db.Snapshot()), documentId, userId, "Not authorized to delete this document");
      && (auth.Err? ==> r == Err(auth.error) && db.Snapshot() == old(db.Snapshot()))
      && (auth.Ok? && old(db.documents)[auth.value].isLocked ==>
            r == Err(DocumentLocked) && db.Snapshot() == old(db.Snapshot()))
      && (auth.Ok? && !old(db.documents)[auth.value].isLocked && Referenced(old(db.Snapshot()), documentId) ==>
            r == Err(CaseEndpoints.ServerError) && db.Snapshot() == old(db.Snapshot()))
      && (auth.Ok? && !old(db.documents)[auth.value].isLocked && !Referenced(old(db.Snapshot()), documentId) ==>
            r == Ok(Deleted("Document deleted successfully", documentId))
            && db.Snapshot() == old(db.Snapshot()).(documents := RemoveAt(old(db.documents), auth.value)))
    ensures r.Err? ==> db.Snapshot() == old(db.Snapshot())
    ensures Consistent(old(db.Snapshot())) ==> Consistent(db.Snapshot())
  {
    var auth := Authorize(db.Snapshot(), documentId, userId, "Not authorized to delete this document");
    if auth.Err? {
      return Err(auth.error);
    }
    var i := auth.value;
    if db.documents[i].isLocked {
      return Err(DocumentLocked);
    }
    if Referenced(db.Snapshot(), documentId) {
      return Err(CaseEndpoints.ServerError);
    }
    if Consistent(db.Snapshot()) {
      RemoveDocumentKeepsConsistent(db.Snapshot(), i);
    }
    db.documents := RemoveAt(db.documents, i);
    r := Ok(Deleted("Document deleted successfully", documentId));
  }

  /** A locked document survives every delete request. */
  lemma LockedNeverDeleted(db: Db, documentId: Id, userId: Id, i: nat)
    requires Consistent(db) && i < |db.documents| && db.documents[i].id == documentId && db.documents[i].isLocked
    ensures var auth := Authorize(db, documentId, userId, "Not authorized to delete this document");
      auth.Err? || db.documents[auth.value].isLocked
  {
    var auth := Authorize(db, documentId, userId, "Not authorized to delete this document");
    var idKey := (x: DocumentRecord) => x.id;
    forall j | 0 <= j < |db.documents| && j != i ensures db.documents[j].id != documentId {
      if j < i { assert idKey(db.documents[j]) != idKey(db.documents[i]); }
      else { assert idKey(db.documents[i]) != idKey(db.documents[j]); }
    }
  }

  /** The row after `POST /documents/{document_id}/confirm`. */
  function Confirmed(d: DocumentRecord, now: int): (r: DocumentRecord)
    ensures r.uploadStatus == UploadCompleted && r.uploadedAt == Some(now)
    ensures r.(uploadStatus := d.uploadStatus, uploadedAt := d.uploadedAt, updatedAt := d.updatedAt) == d
  {
    d.(uploadStatus := UploadCompleted, uploadedAt := Some(now), updatedAt := now)
  }

  /** Confirming again changes only the timestamps. */
  lemma ConfirmTwice(d: DocumentRecord, t1: int, t2: int)
    ensures Confirmed(Confirmed(d, t1), t2).uploadStatus == Confirmed(d, t1).uploadStatus
    ensures Confirmed(Confirmed(d, t1), t2) == Confirmed(d, t2)
  {
  }

  /** `POST /documents/{document_id}/confirm`: marks the upload completed
      (the ORM also refreshes `updated_at`). */
  method ConfirmUpload(db: Database, documentId: Id, userId: Id, now: int) returns (r: Result<DocumentRecord, Failure>)
    modifies db
    ensures var auth := Authorize(old(db.Snapshot()), documentId, userId, "Not authorized");
      && (auth.Err? ==> r == Err(auth.error) && db.Snapshot() == old(db.Snapshot()))
      && (auth.Ok? ==>
            var d := Confirmed(old(db.documents)[auth.value], now);
            r == Ok(d) && db.Snapshot() == old(db.Snapshot()).(documents := old(db.documents)[auth.value := d]))
    ensures Consistent(old(db.Snapshot())) ==> Consistent(db.Snapshot())
  {
    var auth := Authorize(db.Snapshot(), documentId, userId, "Not authorized");
    if auth.Err? {
      return Err(auth.error);
    }
    var i := auth.value;
    var d := Confirmed(db.documents[i], now);
    ghost var before := db.Snapshot();
    if Consistent(before) {
      ReplaceDocumentKeepsConsistent(before, i, d);
    }
    db.documents := db.documents[i := d];
    assert db.Snapshot() == before.(documents := before.documents[i := d]);
    r := Ok(d);
  }

  // ---------------------------------------------------------------------
  // Statistics
  // ---------------------------------------------------------------------

  datatype CategoryStat = CategoryStat(count: nat, size: int)

  datatype DocumentStats = DocumentStats(
    byCategory: map<DocumentCategory, CategoryStat>, byStatus: map<UploadStatus, nat>,
    totalDocuments: nat, totalStorageBytes: int)

  function Size(d: DocumentRecord): int { d.fileSize }

  function CountCategory(ds: seq<DocumentRecord>, c: DocumentCategory): nat {
    Count(ds, (d: DocumentRecord) => d.category == c)
  }

  function SizeCategory(ds: seq<DocumentRecord>, c: DocumentCategory): int {
    Sum(Filter(ds, (d: DocumentRecord) => d.category == c), Size)
  }

  function CountUpload(ds: seq<DocumentRecord>, s: UploadStatus): nat {
    Count(ds, (d: DocumentRecord) => d.uploadStatus == s)
  }

  const AllCategories: seq<DocumentCategory> := [CaseFile, Annexure, Judgment, Order, Misc]
  const AllUploadStatuses: seq<UploadStatus> := [UploadPending, Uploading, UploadCompleted, UploadFailed]

  /** The documents of every case the caller owns, hidden cases included. */
  function DocumentsOf(db: Db, userId: Id): seq<DocumentRecord> {
    Filter(db.documents, (d: DocumentRecord) => d.caseId in CasesOf(db.cases, userId))
  }

  /** Count and total size per category present among `ds`. */
  function ByCategory(ds: seq<DocumentRecord>): (m: map<DocumentCategory, CategoryStat>)
    ensures forall c :: c in m <==> CountCategory(ds, c) > 0
    ensures forall c :: c in m ==> m[c] == CategoryStat(CountCategory(ds, c), SizeCategory(ds, c))
  {
    AllCategoriesListed();
    map c | c in AllCategories && CountCategory(ds, c) > 0 :: CategoryStat(CountCategory(ds, c), SizeCategory(ds, c))
  }

  /** Count per upload status present among `ds`. */
  function ByUploadStatus(ds: seq<DocumentRecord>): (m: map<UploadStatus, nat>)
    ensures forall s :: s in m <==> CountUpload(ds, s) > 0
    ensures forall s :: s in m ==> m[s] == CountUpload(ds, s)
  {
    AllUploadStatusesListed();
    map s | s in AllUploadStatuses && CountUpload(ds, s) > 0 :: CountUpload(ds, s)
  }

  lemma AllCategoriesListed()
    ensures forall c: DocumentCategory :: c in AllCategories
  {
    forall c: DocumentCategory ensures c in AllCategories {
      match c
      case CaseFile => assert AllCategories[0] == c;
      case Annexure => assert AllCategories[1] == c;
      case Judgment => assert AllCategories[2] == c;
      case Order => assert AllCategories[3] == c;
      case Misc => assert AllCategories[4] == c;
    }
  }

  lemma AllUploadStatusesListed()
    ensures forall s: UploadStatus :: s in AllUploadStatuses
  {
    forall s: UploadStatus ensures s in AllUploadStatuses {
      match s
      case UploadPending => assert AllUploadStatuses[0] == s;
      case Uploading => assert AllUploadStatuses[1] == s;
      case UploadCompleted => assert AllUploadStatuses[2] == s;
      case UploadFailed => assert AllUploadStatuses[3] == s;
    }
  }

  /** The handler `get_document_stats`: a caller without cases gets zeros; otherwise
      the per-category and per-status counts of the documents of all their
      cases, the document total as the sum of the category counts, and the
      summed file sizes. */
  function GetDocumentStats(db: Db, userId: Id): (r: DocumentStats)
    ensures CasesOf(db.cases, userId) == {} ==> r == DocumentStats(map[], map[], 0, 0)
    ensures r.totalDocuments == |DocumentsOf(db, userId)|
    ensures r.totalStorageBytes == Sum(DocumentsOf(db, userId), Size)
    ensures forall c :: c in r.byCategory <==> CountCategory(DocumentsOf(db, userId), c) > 0
    ensures forall c :: c in r.byCategory ==> r.byCategory[c] == CategoryStat(
      CountCategory(DocumentsOf(db, userId), c), SizeCategory(DocumentsOf(db, userId), c))
    ensures forall s :: s in r.byStatus <==> CountUpload(DocumentsOf(db, userId), s) > 0
    ensures forall s :: s in r.byStatus ==> r.byStatus[s] == CountUpload(DocumentsOf(db, userId), s)
  {
    if CasesOf(db.cases, userId) == {} then
      NoneKept(db.documents, (d: DocumentRecord) => d.caseId in CasesOf(db.cases, userId));
      DocumentStats(map[], map[], 0, 0)
    else
      var ds := DocumentsOf(db, userId);
      var byCategory := ByCategory(ds);
      CategoryTotalCounts(ds);
      DocumentStats(byCategory, ByUploadStatus(ds), CategoryTotal(byCategory), Sum(ds, Size))
  }

  /** A filter no element passes keeps nothing. */
  lemma {:induction false} NoneKept<T>(s: seq<T>, p: T -> bool)
    requires forall x :: x in s ==> !p(x)
    ensures Filter(s, p) == []
  {
    if s != [] {
      assert s[0] in s;
      NoneKept(s[1..], p);
    }
  }

  /** The category counts of a listing add up to its length. */
  lemma CategoryTotalCounts(ds: seq<DocumentRecord>)
    ensures CategoryTotal(ByCategory(ds)) == |ds|
  {
    CategoryPartition(ds);
    CategoryEntry(ds, CaseFile);
    CategoryEntry(ds, Annexure);
    CategoryEntry(ds, Judgment);
    CategoryEntry(ds, Order);
    CategoryEntry(ds, Misc);
  }

  /** A category's entry counts its documents, and is absent when there are none. */
  lemma CategoryEntry(ds: seq<DocumentRecord>, c: DocumentCategory)
    ensures var m := ByCategory(ds); (if c in m then m[c].count else 0) == CountCategory(ds, c)
  {
  }

  /** `sum(stat.count for stat in stats)`: the per-category counts added up. */
  function CategoryTotal(m: map<DocumentCategory, CategoryStat>): int {
    (if CaseFile in m then m[CaseFile].count else 0) + (if Annexure in m then m[Annexure].count else 0)
    + (if Judgment in m then m[Judgment].count else 0) + (if Order in m then m[Order].count else 0)
    + (if Misc in m then m[Misc].count else 0)
  }

  function CategorySum(ds: seq<DocumentRecord>): int {
    CountCategory(ds, CaseFile) + CountCategory(ds, Annexure) + CountCategory(ds, Judgment)
    + CountCategory(ds, Order) + CountCategory(ds, Misc)
  }

  /** Every document has exactly one category, so the per-category counts
      add up to the number of documents. */
  lemma {:induction false} CategoryPartition(ds: seq<DocumentRecord>)
    ensures CategorySum(ds) == |ds|
  {
    if ds != [] {
      CategoryPartition(ds[1..]);
      CountCategoryCons(ds, CaseFile);
      CountCategoryCons(ds, Annexure);
      CountCategoryCons(ds, Judgment);
      CountCategoryCons(ds, Order);
      CountCategoryCons(ds, Misc);
    }
  }

  lemma CountCategoryCons(ds: seq<DocumentRecord>, c: DocumentCategory)
    requires ds != []
    ensures CountCategory(ds, c) == (if ds[0].category == c then 1 else 0) + CountCategory(ds[1..], c)
  {
    assert ds == [ds[0]] + ds[1..];
    FilterConcat([ds[0]], ds[1..], (d: DocumentRecord) => d.category == c);
  }
}
