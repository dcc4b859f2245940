/** Case bundles: the classified documents of a case sorted into the slots
    the bundle analysis reads. Three builders exist in the webapp:
    `organizeBundl` and `buildBundleContext`
    (webapp/src/lib/ai/core/case-bundle-processor.ts), `buildCaseBundle`
    from classified uploads (webapp/src/lib/ai/utils/bundle-builder.ts) and
    `buildCaseBundle` from a stored case (webapp/src/lib/utils/bundle-builder.ts). */
module CaseBundles {
  import opened Common
  import opened Models
  import opened WebModels
  import opened DocumentClassifier
  import Order

  datatype CaseBundle = CaseBundle(
    caseId: string,
    documents: seq<ClassifiedDocument>,
    petition: Option<ClassifiedDocument>,
    counter: Option<ClassifiedDocument>,
    rejoinder: Option<ClassifiedDocument>,
    annexures: seq<ClassifiedDocument>,
    orders: seq<ClassifiedDocument>)

  predicate IsPetition(d: ClassifiedDocument) { d.docType == Petition.Name() }
  predicate IsCounter(d: ClassifiedDocument) { d.docType == CounterAffidavit.Name() }
  predicate IsRejoinder(d: ClassifiedDocument) { d.docType == Rejoinder.Name() }
  predicate IsAnnexure(d: ClassifiedDocument) { d.docType == DocType.Annexure.Name() }
  predicate IsOrder(d: ClassifiedDocument) {
    d.docType == InterimOrder.Name() || d.docType == DailyOrder.Name()
  }

  /** A document some slot takes. */
  predicate HasSlot(d: ClassifiedDocument) {
    IsPetition(d) || IsCounter(d) || IsRejoinder(d) || IsAnnexure(d) || IsOrder(d)
  }

  /** Which document a first-match slot holds: none exactly when no
      document has the type, otherwise the earliest one that has it. */
  predicate FirstOfType(slot: Option<ClassifiedDocument>, docs: seq<ClassifiedDocument>, p: ClassifiedDocument -> bool) {
    (slot.None? <==> forall i :: 0 <= i < |docs| ==> !p(docs[i]))
    && (slot.Some? ==> exists i :: 0 <= i < |docs| && docs[i] == slot.value && p(docs[i])
                                   && forall j :: 0 <= j < i ==> !p(docs[j]))
  }

  lemma FirstIsFirstOfType(docs: seq<ClassifiedDocument>, p: ClassifiedDocument -> bool)
    ensures FirstOfType(First(docs, p), docs, p)
  {
    var r := First(docs, p);
    if r.Some? {
      var i := FirstIndex(docs, p);
      assert docs[i] == r.value && p(docs[i]);
    }
  }

  /** `organizeBundl`: the document list unchanged, the first petition,
      counter affidavit and rejoinder, and every annexure and every
      (interim or daily) order in input order. */
  function OrganizeBundle(docs: seq<ClassifiedDocument>): (r: CaseBundle)
    ensures r.caseId == "" && r.documents == docs
    ensures FirstOfType(r.petition, docs, IsPetition)
    ensures FirstOfType(r.counter, docs, IsCounter)
    ensures FirstOfType(r.rejoinder, docs, IsRejoinder)
    ensures forall d :: d in r.annexures <==> d in docs && IsAnnexure(d)
    ensures forall d :: d in r.orders <==> d in docs && IsOrder(d)
  {
    FirstIsFirstOfType(docs, IsPetition);
    FirstIsFirstOfType(docs, IsCounter);
    FirstIsFirstOfType(docs, IsRejoinder);
    FilterMembers(docs, IsAnnexure);
    FilterMembers(docs, IsOrder);
    CaseBundle("", docs,
      First(docs, IsPetition), First(docs, IsCounter), First(docs, IsRejoinder),
      Filter(docs, IsAnnexure), Filter(docs, IsOrder))
  }

  /** A judgment, evidence, correspondence, "OTHER" or unknown document
      occupies no slot. */
  lemma UnslottedDocumentsStayOut(docs: seq<ClassifiedDocument>, d: ClassifiedDocument)
    requires !HasSlot(d)
    ensures var b := OrganizeBundle(docs);
      b.petition != Some(d) && b.counter != Some(d) && b.rejoinder != Some(d)
      && d !in b.annexures && d !in b.orders
  {
  }

  /** Adding a document at the end of the input only fills an empty
      first-match slot and appends to the list slots: the slots keep
      input order. */
  lemma OrganizeAppend(docs: seq<ClassifiedDocument>, d: ClassifiedDocument)
    ensures var before := OrganizeBundle(docs);
      var after := OrganizeBundle(docs + [d]);
      after.annexures == before.annexures + (if IsAnnexure(d) then [d] else [])
      && after.orders == before.orders + (if IsOrder(d) then [d] else [])
      && after.petition == (if before.petition.None? && IsPetition(d) then Some(d) else before.petition)
      && after.counter == (if before.counter.None? && IsCounter(d) then Some(d) else before.counter)
      && after.rejoinder == (if before.rejoinder.None? && IsRejoinder(d) then Some(d) else before.rejoinder)
  {
    FilterAppend(docs, d, IsAnnexure);
    FilterAppend(docs, d, IsOrder);
    FirstAppend(docs, d, IsPetition);
    FirstAppend(docs, d, IsCounter);
    FirstAppend(docs, d, IsRejoinder);
  }

  lemma FilterAppend(docs: seq<ClassifiedDocument>, d: ClassifiedDocument, p: ClassifiedDocument -> bool)
    ensures Filter(docs + [d], p) == Filter(docs, p) + if p(d) then [d] else []
  {
    FilterConcat(docs, [d], p);
    assert Filter([d], p) == (if p(d) then [d] else []) + Filter([d][1..], p);
  }

  lemma FirstAppend(docs: seq<ClassifiedDocument>, d: ClassifiedDocument, p: ClassifiedDocument -> bool)
    ensures First(docs + [d], p) == if First(docs, p).None? && p(d) then Some(d) else First(docs, p)
  {
    var s := docs + [d];
    var k := FirstIndex(docs, p);
    assert forall j :: 0 <= j < |docs| ==> s[j] == docs[j];
    assert s[|docs|] == d;
    if k >= 0 {
      assert p(s[k]);
    }
  }

  // ---------------------------------------------------------------------
  // buildBundleContext
  // ---------------------------------------------------------------------

  const ContextHeader: string := "# Case Bundle Context\n\n"

  /** A titled section for an optional first-match slot. */
  function SlotSection(heading: string, slot: Option<ClassifiedDocument>): string {
    match slot
    case None => ""
    case Some(d) => "## " + heading + "\n" + d.extractedText + "\n\n"
  }

  /** One entry per order, in order. */
  function OrderEntries(orders: seq<ClassifiedDocument>): string {
    if orders == [] then ""
    else OrderEntries(orders[..|orders| - 1]) + OrderEntry(orders[|orders| - 1])
  }

  function OrderEntry(o: ClassifiedDocument): string {
    "### " + o.title + "\n" + o.extractedText + "\n\n"
  }

  function OrdersSection(orders: seq<ClassifiedDocument>): string {
    if orders == [] then "" else "## Orders\n" + OrderEntries(orders)
  }

  /** The prompt context: the header, the petition, counter affidavit and
      rejoinder sections when present, then the orders section. */
  function BundleContext(b: CaseBundle): (r: string)
    ensures StartsWith(r, ContextHeader)
  {
    var r := ContextHeader + SlotSection("Petition", b.petition) + SlotSection("Counter Affidavit", b.counter)
      + SlotSection("Rejoinder", b.rejoinder) + OrdersSection(b.orders);
    assert r[..|ContextHeader|] == ContextHeader;
    r
  }

  /** Annexures, the full document list and the case id never reach the
      context. */
  lemma ContextIgnoresUnsectionedFields(b: CaseBundle, caseId: string, documents: seq<ClassifiedDocument>, annexures: seq<ClassifiedDocument>)
    ensures BundleContext(b.(caseId := caseId, documents := documents, annexures := annexures)) == BundleContext(b)
  {
  }

  /** A bundle with nothing in its sectioned slots gives the bare header. */
  lemma EmptyBundleContext(b: CaseBundle)
    requires b.petition.None? && b.counter.None? && b.rejoinder.None? && b.orders == []
    ensures BundleContext(b) == ContextHeader
  {
  }

  /** `buildBundleContext`, appending to the context as the source does. */
  method BuildBundleContext(b: CaseBundle) returns (context: string)
    ensures context == BundleContext(b)
  {
    context := ContextHeader;
    if b.petition.Some? {
      context := context + SlotSection("Petition", b.petition);
    }
    if b.counter.Some? {
      context := context + SlotSection("Counter Affidavit", b.counter);
    }
    if b.rejoinder.Some? {
      context := context + SlotSection("Rejoinder", b.rejoinder);
    }
    assert context == ContextHeader + SlotSection("Petition", b.petition) + SlotSection("Counter Affidavit", b.counter)
      + SlotSection("Rejoinder", b.rejoinder);
    if |b.orders| > 0 {
      context := AppendOrderEntries(context + "## Orders\n", b.orders);
    }
  }

  /** The `forEach` over the orders: one entry appended per order. */
  method AppendOrderEntries(context: string, orders: seq<ClassifiedDocument>) returns (r: string)
    ensures r == context + OrderEntries(orders)
  {
    r := context;
    var i := 0;
    while i < |orders|
      invariant 0 <= i <= |orders|
      invariant r == context + OrderEntries(orders[..i])
    {
      assert orders[..i + 1][..i] == orders[..i];
      r := r + OrderEntry(orders[i]);
      i := i + 1;
    }
    assert orders[..i] == orders;
  }

  // ---------------------------------------------------------------------
  // buildCaseBundle from classified uploads
  // ---------------------------------------------------------------------

  /** An uploaded document's optional classification as the client holds it. */
  datatype UploadClassification = UploadClassification(docType: string, confidence: real, metadata: Json)

  /** An uploaded document: `caseId` "" stands for a missing case id. */
  datatype UploadedDocument = UploadedDocument(
    id: string, caseId: string, fileName: string,
    extractedText: Option<string>, classification: Option<UploadClassification>)

  /** One upload as a classified document, with the `||` defaults. */
  function FromUpload(d: UploadedDocument): (r: ClassifiedDocument)
    ensures r.id == d.id && r.title == d.fileName
    ensures r.extractedText == d.extractedText.GetOr("")
    ensures r.docType == Other.Name() <==>
      d.classification.None? || d.classification.value.docType in {"", Other.Name()}
    ensures d.classification.None? ==> r.confidence == 0.0 && r.metadata == EmptyObject
    ensures d.classification.Some? ==> r.confidence == d.classification.value.confidence
    ensures d.classification.Some? && d.classification.value.docType != "" ==>
      r.docType == d.classification.value.docType
    ensures d.classification.Some? && Truthy(d.classification.value.metadata) ==>
      r.metadata == d.classification.value.metadata
    ensures d.classification.Some? && !Truthy(d.classification.value.metadata) ==> r.metadata == EmptyObject
  {
    match d.classification
    case None => ClassifiedDocument(d.id, Other.Name(), d.fileName, d.extractedText.GetOr(""), 0.0, EmptyObject)
    case Some(c) =>
      ClassifiedDocument(d.id, if c.docType == "" then Other.Name() else c.docType, d.fileName,
        d.extractedText.GetOr(""), c.confidence, if Truthy(c.metadata) then c.metadata else EmptyObject)
  }

  function MapUploads(docs: seq<UploadedDocument>): (r: seq<ClassifiedDocument>)
    ensures |r| == |docs| && forall i :: 0 <= i < |docs| ==> r[i] == FromUpload(docs[i])
  {
    seq(|docs|, i requires 0 <= i < |docs| => FromUpload(docs[i]))
  }

  /** `buildCaseBundle(documents)` in the AI utilities, slots written out
      as the source writes them. */
  function BundleFromUploads(docs: seq<UploadedDocument>): (r: CaseBundle)
    ensures r.documents == MapUploads(docs)
    ensures |r.documents| == |docs|
    ensures forall i :: 0 <= i < |docs| ==> r.documents[i].id == docs[i].id && r.documents[i].title == docs[i].fileName
    ensures r.caseId == if docs == [] then "" else docs[0].caseId
  {
    var classified := MapUploads(docs);
    CaseBundle(if docs == [] then "" else docs[0].caseId, classified,
      First(classified, IsPetition), First(classified, IsCounter), First(classified, IsRejoinder),
      Filter(classified, IsAnnexure), Filter(classified, IsOrder))
  }

  /** Its slots are exactly the ones `organizeBundl` assigns. */
  lemma UploadSlotsMatchOrganize(docs: seq<UploadedDocument>)
    ensures var r := BundleFromUploads(docs);
      r == OrganizeBundle(r.documents).(caseId := r.caseId)
  {
  }

  // ---------------------------------------------------------------------
  // buildCaseBundle from a stored case
  // ---------------------------------------------------------------------

  /** `mapDocumentCategoryToType`: case files by their title, the other
      categories by a fixed table. */
  function CategoryToType(category: DocumentCategory, title: string): (r: DocType)
    ensures r != DailyOrder && r != DocType.Judgment && r != Evidence && r != Correspondence
    ensures category == CaseFile <==> r in {Petition, CounterAffidavit, Rejoinder}
    ensures category == DocumentCategory.Annexure <==> r == DocType.Annexure
    ensures category == Order <==> r == InterimOrder
    ensures category in {DocumentCategory.Judgment, Misc} <==> r == Other
  {
    var lower := Lower(title);
    if category == CaseFile then
      if Contains(lower, "counter") || Contains(lower, "affidavit") then CounterAffidavit
      else if Contains(lower, "rejoinder") then Rejoinder
      else Petition
    else
      match category
      case Annexure => DocType.Annexure
      case Judgment => Other
      case Order => InterimOrder
      case Misc => Other
  }

  /** A stored row as a classified document: the stored confidence unless
      it is missing or 0, then 1.0; the stored metadata unless missing or
      falsy, then `{}`. */
  function FromStored(d: WebDocument): (r: ClassifiedDocument)
    ensures r.id == d.id && r.title == d.title
    ensures r.docType == CategoryToType(d.category, d.title).Name()
    ensures r.extractedText == d.extractedText.GetOr("")
    ensures r.confidence == 1.0 <==> d.classificationConfidence in {None, Some(0.0), Some(1.0)}
    ensures d.classificationConfidence.Some? && d.classificationConfidence.value != 0.0 ==>
      r.confidence == d.classificationConfidence.value
    ensures d.aiMetadata.Some? && Truthy(d.aiMetadata.value) ==> r.metadata == d.aiMetadata.value
    ensures d.aiMetadata.None? || !Truthy(d.aiMetadata.value) ==> r.metadata == EmptyObject
  {
    var confidence := match d.classificationConfidence
      case Some(c) => if c == 0.0 then 1.0 else c
      case None => 1.0;
    var metadata := match d.aiMetadata
      case Some(m) => if Truthy(m) then m else EmptyObject
      case None => EmptyObject;
    ClassifiedDocument(d.id, CategoryToType(d.category, d.title).Name(), d.title,
      d.extractedText.GetOr(""), confidence, metadata)
  }

  function MapStored(docs: seq<WebDocument>): (r: seq<ClassifiedDocument>)
    ensures |r| == |docs| && forall i :: 0 <= i < |docs| ==> r[i] == FromStored(docs[i])
  {
    seq(|docs|, i requires 0 <= i < |docs| => FromStored(docs[i]))
  }

  predicate InBundle(d: WebDocument, caseId: string) {
    d.caseId == caseId && d.uploadStatus == UploadCompleted
  }

  /** The case's completed documents, oldest upload first. */
  function BundleRows(docs: seq<WebDocument>, caseId: string): (r: seq<WebDocument>)
    ensures forall d :: d in r <==> d in docs && InBundle(d, caseId)
    ensures Order.SortedBy(r, UploadedKey, false)
  {
    var rows := Filter(docs, d => InBundle(d, caseId));
    FilterMembers(docs, d => InBundle(d, caseId));
    Order.SortByCorrect(rows, UploadedKey, false);
    var r := Order.SortBy(rows, UploadedKey, false);
    assert forall d :: d in r <==> d in multiset(r);
    assert forall d :: d in rows <==> d in multiset(rows);
    r
  }

  /** `buildCaseBundle(caseId)`: "Case not found" for an unknown case,
      otherwise the bundle of its completed documents. */
  function BundleForCase(caseIds: seq<string>, docs: seq<WebDocument>, caseId: string): (r: Result<CaseBundle, string>)
    ensures r.Err? <==> caseId !in caseIds
    ensures r.Err? ==> r.error == "Case not found"
    ensures r.Ok? ==> r.value.caseId == caseId && r.value.documents == MapStored(BundleRows(docs, caseId))
  {
    if caseId !in caseIds then Err("Case not found")
    else
      var classified := MapStored(BundleRows(docs, caseId));
      Ok(CaseBundle(caseId, classified,
        First(classified, IsPetition), First(classified, IsCounter), First(classified, IsRejoinder),
        Filter(classified, IsAnnexure), Filter(classified, IsOrder)))
  }

  /** Its slots are exactly the ones `organizeBundl` assigns. */
  lemma StoredSlotsMatchOrganize(caseIds: seq<string>, docs: seq<WebDocument>, caseId: string)
    requires caseId in caseIds
    ensures var r := BundleForCase(caseIds, docs, caseId).value;
      r == OrganizeBundle(r.documents).(caseId := caseId)
  {
  }

  /** A stored bundle never fills the order list with daily orders nor
      slots a judgment: every stored judgment becomes OTHER and lands in no
      slot. */
  lemma StoredJudgmentsUnslotted(d: WebDocument)
    requires d.category == DocumentCategory.Judgment
    ensures !HasSlot(FromStored(d))
  {
  }
}
