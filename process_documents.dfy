/** The background OCR job (webapp/src/lib/jobs/process-documents.ts):
    pick up to ten uploaded documents still waiting for OCR, oldest first,
    and drive each through PENDING -> PROCESSING -> COMPLETED or FAILED,
    counting successes and failures. S3, the PDF text extractor and the
    classifier are parameters; Prisma updates are assignments to the
    `WebDatabase` fields. */
module ProcessDocuments {
  import opened Common
  import opened Models
  import opened WebModels
  import Order

  const BatchLimit: nat := 10
  const MinTextLength: nat := 50
  const EmptyS3Body: string := "Empty S3 response"
  const InsufficientText: string := "Insufficient text extracted from PDF"

  /** A thrown value: an `Error` (with its message) or anything else. */
  datatype Thrown = ThrewError(message: string) | ThrewOther

  /** The message stored in `uploadError` for a thrown value. */
  function ErrorText(e: Thrown): (r: string)
    ensures e.ThrewError? ==> r == e.message
    ensures e.ThrewOther? ==> r == "Processing failed"
  {
    match e
    case ThrewError(m) => m
    case ThrewOther => "Processing failed"
  }

  /** What fetching the object gave: the S3 call threw, the body was
      missing, or the body's text (`None` when the extractor threw, which the
      job swallows, keeping the empty text). */
  datatype Download = DownloadThrew(e: Thrown) | EmptyBody | Body(text: Option<string>)

  /** What the classifier gave for a document and its text. */
  datatype Classification = Classified(confidence: real, metadata: Json) | ClassifyThrew(e: Thrown)

  /** How one document's attempt ended. */
  datatype DocOutcome = Succeeded(text: string, confidence: real, metadata: Json) | Failed(message: string)

  // ---------------------------------------------------------------------
  // Selection
  // ---------------------------------------------------------------------

  /** The job's `where` clause. */
  predicate NeedsOcr(d: WebDocument) {
    d.uploadStatus == UploadCompleted && d.ocrStatus == OcrPending && d.extractedText.None?
  }

  /** `findMany({where, take: 10, orderBy: {uploadedAt: 'asc'}})`. */
  function Selected(docs: seq<WebDocument>): (r: seq<WebDocument>)
    ensures |r| == Min(BatchLimit, |Filter(docs, NeedsOcr)|)
    ensures forall i :: 0 <= i < |r| ==> r[i] in docs && NeedsOcr(r[i])
    ensures Order.SortedBy(r, UploadedKey, false)
    ensures |Filter(docs, NeedsOcr)| <= BatchLimit ==> forall d :: d in docs && NeedsOcr(d) ==> d in r
  {
    EligibleSorted(docs);
    Take(Order.SortBy(Filter(docs, NeedsOcr), UploadedKey, false), BatchLimit)
  }

  /** Sorting the eligible rows by upload time keeps exactly those rows. */
  lemma EligibleSorted(docs: seq<WebDocument>)
    ensures var sorted := Order.SortBy(Filter(docs, NeedsOcr), UploadedKey, false);
      |sorted| == |Filter(docs, NeedsOcr)| && Order.SortedBy(sorted, UploadedKey, false)
      && forall d :: d in sorted <==> d in docs && NeedsOcr(d)
  {
    var eligible := Filter(docs, NeedsOcr);
    var sorted := Order.SortBy(eligible, UploadedKey, false);
    Order.SortByCorrect(eligible, UploadedKey, false);
    FilterMembers(docs, NeedsOcr);
    forall d ensures d in sorted <==> d in eligible {
      assert d in sorted <==> d in multiset(sorted);
      assert d in eligible <==> d in multiset(eligible);
    }
  }

  /** The ten are the oldest: no eligible document left behind was uploaded
      before one that was picked. */
  lemma {:induction false} SelectedAreOldest(docs: seq<WebDocument>, e: WebDocument)
    requires e in docs && NeedsOcr(e) && e !in Selected(docs)
    ensures forall x :: x in Selected(docs) ==> Order.KeyLe(UploadedKey(x), UploadedKey(e))
  {
    var eligible := Filter(docs, NeedsOcr);
    Order.SortByCorrect(eligible, UploadedKey, false);
    var sorted := Order.SortBy(eligible, UploadedKey, false);
    assert e in multiset(eligible);
    assert e in multiset(sorted);
    var j :| 0 <= j < |sorted| && sorted[j] == e;
    var r := Selected(docs);
    assert r == Take(sorted, BatchLimit);
    assert forall k :: 0 <= k < |r| ==> r[k] != e;
    forall x | x in r ensures Order.KeyLe(UploadedKey(x), UploadedKey(e)) {
      var i :| 0 <= i < |r| && r[i] == x;
      assert sorted[i] == x;
    }
  }

  // ---------------------------------------------------------------------
  // One document
  // ---------------------------------------------------------------------

  /** The attempt for one document, from what S3 and the classifier give. */
  function Outcome(download: Download, classify: string -> Classification): (r: DocOutcome)
    ensures r.Succeeded? <==>
      download.Body? && |download.text.GetOr("")| >= MinTextLength && classify(download.text.GetOr("")).Classified?
    ensures r.Succeeded? ==>
      download.text == Some(r.text) && |r.text| >= MinTextLength
      && classify(r.text) == Classified(r.confidence, r.metadata)
    ensures download.DownloadThrew? ==> r == Failed(ErrorText(download.e))
    ensures download.EmptyBody? ==> r == Failed(EmptyS3Body)
    ensures download.Body? && |download.text.GetOr("")| < MinTextLength ==> r == Failed(InsufficientText)
    ensures download.Body? && |download.text.GetOr("")| >= MinTextLength && classify(download.text.GetOr("")).ClassifyThrew? ==>
      r == Failed(ErrorText(classify(download.text.GetOr("")).e))
  {
    match download
    case DownloadThrew(e) => Failed(ErrorText(e))
    case EmptyBody => Failed(EmptyS3Body)
    case Body(t) =>
      var text := t.GetOr("");
      if |text| < MinTextLength then Failed(InsufficientText)
      else
        match classify(text)
        case Classified(c, m) => Succeeded(text, c, m)
        case ClassifyThrew(e) => Failed(ErrorText(e))
  }

  /** A failing extractor can never lead to a stored text. */
  lemma ExtractorFailureFails(classify: string -> Classification)
    ensures Outcome(Body(None), classify) == Failed(InsufficientText)
  {
  }

  /** The first update: mark the row as being processed. */
  function MarkProcessing(d: WebDocument): (r: WebDocument)
    ensures r == d.(ocrStatus := OcrProcessing)
  {
    d.(ocrStatus := OcrProcessing)
  }

  /** The final update for the row: the success patch or the failure patch. */
  function Settle(d: WebDocument, o: DocOutcome): (r: WebDocument)
    ensures r.id == d.id && r.caseId == d.caseId
    ensures r.ocrStatus == OcrCompleted || r.ocrStatus == OcrFailed
    ensures o.Succeeded? ==> r == d.(extractedText := Some(o.text), classificationConfidence := Some(o.confidence),
      aiMetadata := Some(o.metadata), ocrStatus := OcrCompleted)
    ensures o.Failed? ==> r == d.(ocrStatus := OcrFailed, uploadError := Some(o.message))
  {
    match o
    case Succeeded(text, c, m) =>
      d.(extractedText := Some(text), classificationConfidence := Some(c), aiMetadata := Some(m), ocrStatus := OcrCompleted)
    case Failed(msg) => d.(ocrStatus := OcrFailed, uploadError := Some(msg))
  }

  /** `prisma.document.update({where: {id}, data})`: every row with that id. */
  function UpdateById(docs: seq<WebDocument>, id: string, f: WebDocument -> WebDocument): (r: seq<WebDocument>)
    ensures |r| == |docs|
    ensures forall i :: 0 <= i < |docs| ==> r[i] == if docs[i].id == id then f(docs[i]) else docs[i]
  {
    seq(|docs|, i requires 0 <= i < |docs| => if docs[i].id == id then f(docs[i]) else docs[i])
  }

  /** `prisma.aIInsight.updateMany({where: {caseId}, data: {expiresAt: now}})`. */
  function ExpireInsights(insights: seq<AiInsight>, caseId: string, now: int): (r: seq<AiInsight>)
    ensures |r| == |insights|
    ensures forall i :: 0 <= i < |insights| ==>
      r[i] == if insights[i].caseId == caseId then insights[i].(expiresAt := now) else insights[i]
  {
    seq(|insights|, i requires 0 <= i < |insights| =>
      if insights[i].caseId == caseId then insights[i].(expiresAt := now) else insights[i])
  }

  // ---------------------------------------------------------------------
  // The whole run, as the loop leaves it
  // ---------------------------------------------------------------------

  /** The oracles of one run: the download for a document and the
      classifier's answer for a document and its text. */
  function OutcomeOf(d: WebDocument, fetch: WebDocument -> Download, classify: (WebDocument, string) -> Classification): DocOutcome {
    Outcome(fetch(d), t => classify(d, t))
  }

  /** The document table after processing `sel` in order. */
  function DocsAfter(docs: seq<WebDocument>, sel: seq<WebDocument>,
                     fetch: WebDocument -> Download, classify: (WebDocument, string) -> Classification): (r: seq<WebDocument>)
    ensures |r| == |docs|
  {
    if sel == [] then docs
    else
      var d := sel[|sel| - 1];
      var marked := UpdateById(DocsAfter(docs, sel[..|sel| - 1], fetch, classify), d.id, MarkProcessing);
      UpdateById(marked, d.id, row => Settle(row, OutcomeOf(d, fetch, classify)))
  }

  /** The insight table after processing `sel` in order. */
  function InsightsAfter(insights: seq<AiInsight>, sel: seq<WebDocument>,
                         fetch: WebDocument -> Download, classify: (WebDocument, string) -> Classification, now: int): (r: seq<AiInsight>)
    ensures |r| == |insights|
  {
    if sel == [] then insights
    else
      var d := sel[|sel| - 1];
      var before := InsightsAfter(insights, sel[..|sel| - 1], fetch, classify, now);
      if OutcomeOf(d, fetch, classify).Succeeded? then ExpireInsights(before, d.caseId, now) else before
  }

  predicate HasId(sel: seq<WebDocument>, id: string) {
    exists k :: 0 <= k < |sel| && sel[k].id == id
  }

  predicate SucceededFor(sel: seq<WebDocument>, caseId: string,
                         fetch: WebDocument -> Download, classify: (WebDocument, string) -> Classification) {
    exists k :: 0 <= k < |sel| && sel[k].caseId == caseId && OutcomeOf(sel[k], fetch, classify).Succeeded?
  }

  /** No selected document is left PROCESSING: each ends COMPLETED or
      FAILED, and every other row is exactly as it was. */
  lemma {:induction false} EverySelectedSettled(docs: seq<WebDocument>, sel: seq<WebDocument>,
                                                fetch: WebDocument -> Download, classify: (WebDocument, string) -> Classification)
    ensures var r := DocsAfter(docs, sel, fetch, classify);
      forall i :: 0 <= i < |docs| ==>
        r[i].id == docs[i].id
        && (HasId(sel, docs[i].id) ==> r[i].ocrStatus == OcrCompleted || r[i].ocrStatus == OcrFailed)
        && (!HasId(sel, docs[i].id) ==> r[i] == docs[i])
  {
    if sel != [] {
      var init := sel[..|sel| - 1];
      var d := sel[|sel| - 1];
      EverySelectedSettled(docs, init, fetch, classify);
      var before := DocsAfter(docs, init, fetch, classify);
      var r := DocsAfter(docs, sel, fetch, classify);
      forall i | 0 <= i < |docs|
        ensures r[i].id == docs[i].id
        ensures HasId(sel, docs[i].id) ==> r[i].ocrStatus == OcrCompleted || r[i].ocrStatus == OcrFailed
        ensures !HasId(sel, docs[i].id) ==> r[i] == docs[i]
      {
        if docs[i].id != d.id && HasId(sel, docs[i].id) {
          var k :| 0 <= k < |sel| && sel[k].id == docs[i].id;
          assert init[k].id == docs[i].id;
        }
        if HasId(init, docs[i].id) {
          var k :| 0 <= k < |init| && init[k].id == docs[i].id;
          assert sel[k].id == docs[i].id;
        }
        if docs[i].id == d.id {
          assert sel[|sel| - 1].id == docs[i].id;
        }
      }
    }
  }

  /** Every cached insight of a case in which some selected document was
      processed successfully is expired at `now`; the others are untouched. */
  lemma {:induction false} InsightsExpiredExactly(insights: seq<AiInsight>, sel: seq<WebDocument>,
                                                  fetch: WebDocument -> Download, classify: (WebDocument, string) -> Classification, now: int)
    ensures var r := InsightsAfter(insights, sel, fetch, classify, now);
      forall i :: 0 <= i < |insights| ==>
        (SucceededFor(sel, insights[i].caseId, fetch, classify) ==> r[i] == insights[i].(expiresAt := now))
        && (!SucceededFor(sel, insights[i].caseId, fetch, classify) ==> r[i] == insights[i])
  {
    if sel != [] {
      var init := sel[..|sel| - 1];
      var d := sel[|sel| - 1];
      InsightsExpiredExactly(insights, init, fetch, classify, now);
      var r := InsightsAfter(insights, sel, fetch, classify, now);
      forall i | 0 <= i < |insights|
        ensures SucceededFor(sel, insights[i].caseId, fetch, classify) ==> r[i] == insights[i].(expiresAt := now)
        ensures !SucceededFor(sel, insights[i].caseId, fetch, classify) ==> r[i] == insights[i]
      {
        var c := insights[i].caseId;
        if SucceededFor(init, c, fetch, classify) {
          var k :| 0 <= k < |init| && init[k].caseId == c && OutcomeOf(init[k], fetch, classify).Succeeded?;
          assert sel[k] == init[k];
        }
        if SucceededFor(sel, c, fetch, classify) && !(d.caseId == c && OutcomeOf(d, fetch, classify).Succeeded?) {
          var k :| 0 <= k < |sel| && sel[k].caseId == c && OutcomeOf(sel[k], fetch, classify).Succeeded?;
          assert k < |init| && init[k] == sel[k];
        }
      }
    }
  }

  // ---------------------------------------------------------------------
  // processUnprocessedDocuments
  // ---------------------------------------------------------------------

  /** Counting successes over a growing prefix. */
  lemma CountSnoc<T>(s: seq<T>, x: T, p: T -> bool)
    ensures Count(s + [x], p) == Count(s, p) + if p(x) then 1 else 0
  {
    FilterConcat(s, [x], p);
  }

  /** The body of the job's `try` for one document, after the PROCESSING
      update: download, extract, check the length, classify. */
  method Attempt(d: WebDocument, fetch: WebDocument -> Download, classify: (WebDocument, string) -> Classification)
    returns (outcome: DocOutcome)
    ensures outcome == OutcomeOf(d, fetch, classify)
  {
    var download := fetch(d);
    if download.DownloadThrew? {
      return Failed(ErrorText(download.e));
    }
    if download.EmptyBody? {
      return Failed(EmptyS3Body);
    }
    var text := download.text.GetOr("");
    if |text| < MinTextLength {
      return Failed(InsufficientText);
    }
    var c := classify(d, text);
    if c.ClassifyThrew? {
      return Failed(ErrorText(c.e));
    }
    outcome := Succeeded(text, c.confidence, c.metadata);
  }

  /** One step of the run, for the document `sel[i]`. */
  lemma AfterSnoc(docs: seq<WebDocument>, insights: seq<AiInsight>, sel: seq<WebDocument>, i: nat,
                  fetch: WebDocument -> Download, classify: (WebDocument, string) -> Classification, now: int)
    requires i < |sel|
    ensures sel[..i + 1] == sel[..i] + [sel[i]]
    ensures var d := sel[i];
      DocsAfter(docs, sel[..i + 1], fetch, classify)
        == UpdateById(UpdateById(DocsAfter(docs, sel[..i], fetch, classify), d.id, MarkProcessing),
                      d.id, row => Settle(row, OutcomeOf(d, fetch, classify)))
    ensures var d := sel[i];
      InsightsAfter(insights, sel[..i + 1], fetch, classify, now)
        == if OutcomeOf(d, fetch, classify).Succeeded?
           then ExpireInsights(InsightsAfter(insights, sel[..i], fetch, classify, now), d.caseId, now)
           else InsightsAfter(insights, sel[..i], fetch, classify, now)
  {
    assert sel[..i + 1][..i] == sel[..i];
  }

  /** The loop body for one document: mark it PROCESSING, attempt it, store
      the outcome, and expire the case's cached insights on success. */
  method ProcessOne(db: WebDatabase, d: WebDocument, fetch: WebDocument -> Download,
                    classify: (WebDocument, string) -> Classification, now: int)
    returns (ok: bool)
    modifies db
    ensures ok == OutcomeOf(d, fetch, classify).Succeeded?
    ensures db.documents == UpdateById(UpdateById(old(db.documents), d.id, MarkProcessing),
                                       d.id, row => Settle(row, OutcomeOf(d, fetch, classify)))
    ensures db.insights == if ok then ExpireInsights(old(db.insights), d.caseId, now) else old(db.insights)
    ensures db.caseIds == old(db.caseIds)
  {
    db.documents := UpdateById(db.documents, d.id, MarkProcessing);
    var outcome := Attempt(d, fetch, classify);
    db.documents := UpdateById(db.documents, d.id, row => Settle(row, outcome));
    ok := outcome.Succeeded?;
    if ok {
      db.insights := ExpireInsights(db.insights, d.caseId, now);
    }
  }

  /** The job: `processed` and `failed` count the selected documents that
      ended COMPLETED and FAILED, `skipped` is never incremented, and the
      tables are as `DocsAfter` and `InsightsAfter` describe. */
  method ProcessUnprocessedDocuments(db: WebDatabase, fetch: WebDocument -> Download,
                                     classify: (WebDocument, string) -> Classification, now: int)
    returns (processed: nat, failed: nat, skipped: nat)
    modifies db
    ensures var sel := Selected(old(db.documents));
      processed == Count(sel, (d: WebDocument) => OutcomeOf(d, fetch, classify).Succeeded?)
      && processed + failed == |sel|
      && db.documents == DocsAfter(old(db.documents), sel, fetch, classify)
      && db.insights == InsightsAfter(old(db.insights), sel, fetch, classify, now)
    ensures skipped == 0
    ensures db.caseIds == old(db.caseIds)
  {
    var sel := Selected(db.documents);
    ghost var docs0 := db.documents;
    ghost var insights0 := db.insights;
    ghost var succeeded := (d: WebDocument) => OutcomeOf(d, fetch, classify).Succeeded?;
    processed, failed, skipped := 0, 0, 0;
    var i := 0;
    while i < |sel|
      invariant 0 <= i <= |sel|
      invariant processed == Count(sel[..i], succeeded) && processed + failed == i
      invariant db.documents == DocsAfter(docs0, sel[..i], fetch, classify)
      invariant db.insights == InsightsAfter(insights0, sel[..i], fetch, classify, now)
      invariant skipped == 0 && db.caseIds == old(db.caseIds)
    {
      var d := sel[i];
      AfterSnoc(docs0, insights0, sel, i, fetch, classify, now);
      CountSnoc(sel[..i], d, succeeded);
      var ok := ProcessOne(db, d, fetch, classify, now);
      if ok {
        processed := processed + 1;
      } else {
        failed := failed + 1;
      }
      i := i + 1;
    }
    assert sel[..i] == sel;
  }
}
