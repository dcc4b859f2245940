/** Document classification for the OCR pipeline
    (webapp/src/lib/ai/core/document-classifier-ocr.ts). The language
    model's parsed JSON reply is a parameter: `None` when the call or the
    parse threw. The prompt text has no effect in the model. */
module DocumentClassifier {
  import opened Common

  /** The document types a case bundle distinguishes. */
  datatype DocType =
    | Petition | CounterAffidavit | Rejoinder | Annexure | InterimOrder
    | DailyOrder | Judgment | Evidence | Correspondence | Other
  {
    function Name(): string {
      match this
      case Petition => "PETITION"
      case CounterAffidavit => "COUNTER_AFFIDAVIT"
      case Rejoinder => "REJOINDER"
      case Annexure => "ANNEXURE"
      case InterimOrder => "INTERIM_ORDER"
      case DailyOrder => "DAILY_ORDER"
      case Judgment => "JUDGMENT"
      case Evidence => "EVIDENCE"
      case Correspondence => "CORRESPONDENCE"
      case Other => "OTHER"
    }
  }

  /** A classified document. `docType` is a string: on the language-model
      path it is whatever the reply said, unchecked. */
  datatype ClassifiedDocument = ClassifiedDocument(
    id: string, docType: string, title: string, extractedText: string,
    confidence: real, metadata: Json)

  /** The fields read from the model's parsed reply; a missing `title` is
      "" and a missing `metadata` is `JNull`. */
  datatype LlmClassification = LlmClassification(docType: string, title: string, confidence: real, metadata: Json)

  const EmptyObject: Json := JObj(map[])

  /** Texts shorter than this are taken to be OCR failures. */
  const MinClassifiableLength: nat := 100

  // ---------------------------------------------------------------------
  // Filename rules
  // ---------------------------------------------------------------------

  /** The filename rules in priority order: the keywords of a rule and the
      type it gives. */
  const FilenameRules: seq<(seq<string>, DocType)> := [
    (["petition", "writ"], Petition),
    (["counter", "affidavit"], CounterAffidavit),
    (["rejoinder"], Rejoinder),
    (["order"], InterimOrder),
    (["judgment"], Judgment),
    (["annex"], Annexure)
  ]

  predicate AnyKeyword(name: string, keywords: seq<string>) {
    exists k :: 0 <= k < |keywords| && Contains(name, keywords[k])
  }

  /** Reference reading of a rule table: the type of the first rule with a
      keyword in `name`, or OTHER. */
  function FirstRule(name: string, rules: seq<(seq<string>, DocType)>): (r: DocType)
    ensures r == Other || exists i :: 0 <= i < |rules| && rules[i].1 == r
  {
    if rules == [] then Other
    else if AnyKeyword(name, rules[0].0) then rules[0].1
    else FirstRule(name, rules[1..])
  }

  /** The type `fallbackClassification` picks from the lower-cased name. */
  function FilenameType(fileName: string): (r: DocType)
    ensures r != DailyOrder && r != Evidence && r != Correspondence
  {
    var lower := Lower(fileName);
    if Contains(lower, "petition") || Contains(lower, "writ") then Petition
    else if Contains(lower, "counter") || Contains(lower, "affidavit") then CounterAffidavit
    else if Contains(lower, "rejoinder") then Rejoinder
    else if Contains(lower, "order") then InterimOrder
    else if Contains(lower, "judgment") then Judgment
    else if Contains(lower, "annex") then Annexure
    else Other
  }

  /** The if/else chain is the rule table read first match first. */
  lemma FilenameTypeIsFirstRule(fileName: string)
    ensures FilenameType(fileName) == FirstRule(Lower(fileName), FilenameRules)
  {
    var lower := Lower(fileName);
    var r6: seq<(seq<string>, DocType)> := [];
    var r5 := [(["annex"], Annexure)] + r6;
    var r4 := [(["judgment"], Judgment)] + r5;
    var r3 := [(["order"], InterimOrder)] + r4;
    var r2 := [(["rejoinder"], Rejoinder)] + r3;
    var r1 := [(["counter", "affidavit"], CounterAffidavit)] + r2;
    assert [(["petition", "writ"], Petition)] + r1 == FilenameRules;
    RuleStep(lower, ["annex"], Annexure, r6);
    RuleStep(lower, ["judgment"], Judgment, r5);
    RuleStep(lower, ["order"], InterimOrder, r4);
    RuleStep(lower, ["rejoinder"], Rejoinder, r3);
    RuleStep(lower, ["counter", "affidavit"], CounterAffidavit, r2);
    RuleStep(lower, ["petition", "writ"], Petition, r1);
    TwoKeywords(lower, "petition", "writ");
    TwoKeywords(lower, "counter", "affidavit");
    OneKeyword(lower, "rejoinder");
    OneKeyword(lower, "order");
    OneKeyword(lower, "judgment");
    OneKeyword(lower, "annex");
  }

  lemma RuleStep(name: string, keywords: seq<string>, t: DocType, rest: seq<(seq<string>, DocType)>)
    ensures FirstRule(name, [(keywords, t)] + rest) == if AnyKeyword(name, keywords) then t else FirstRule(name, rest)
  {
    assert ([(keywords, t)] + rest)[1..] == rest;
  }

  lemma TwoKeywords(name: string, a: string, b: string)
    ensures AnyKeyword(name, [a, b]) <==> Contains(name, a) || Contains(name, b)
  {
    if Contains(name, b) { assert [a, b][1] == b; }
    if Contains(name, a) { assert [a, b][0] == a; }
  }

  lemma OneKeyword(name: string, a: string)
    ensures AnyKeyword(name, [a]) <==> Contains(name, a)
  {
    if Contains(name, a) { assert [a][0] == a; }
  }

  // ---------------------------------------------------------------------
  // classifyDocument
  // ---------------------------------------------------------------------

  /** `fallbackClassification`: the filename rules, confidence 0.6. */
  function Fallback(id: string, fileName: string, text: string): (r: ClassifiedDocument)
    ensures r.id == id && r.extractedText == text && r.title == fileName
    ensures r.confidence == 0.6 && r.metadata == EmptyObject
    ensures r.docType == FirstRule(Lower(fileName), FilenameRules).Name()
  {
    FilenameTypeIsFirstRule(fileName);
    ClassifiedDocument(id, FilenameType(fileName).Name(), fileName, text, 0.6, EmptyObject)
  }

  /** `classifyDocument`: a short text is classified OTHER without asking
      the model; otherwise the model's reply, with the title falling back to
      the file name and the metadata to `{}`; otherwise the filename rules. */
  function ClassifyDocument(id: string, fileName: string, text: string, reply: Option<LlmClassification>): (r: ClassifiedDocument)
    ensures r.id == id && r.extractedText == text
    ensures |text| < MinClassifiableLength ==>
      r == ClassifiedDocument(id, Other.Name(), fileName, text, 0.3, EmptyObject)
    ensures |text| >= MinClassifiableLength && reply.None? ==> r == Fallback(id, fileName, text)
    ensures |text| >= MinClassifiableLength && reply.Some? ==>
      r.docType == reply.value.docType && r.confidence == reply.value.confidence
      && (r.title == if reply.value.title == "" then fileName else reply.value.title)
      && (r.metadata == if Truthy(reply.value.metadata) then reply.value.metadata else EmptyObject)
  {
    if |text| < MinClassifiableLength then
      ClassifiedDocument(id, Other.Name(), fileName, text, 0.3, EmptyObject)
    else if reply.None? then
      Fallback(id, fileName, text)
    else
      var c := reply.value;
      ClassifiedDocument(id, c.docType, if c.title == "" then fileName else c.title, text,
        c.confidence, if Truthy(c.metadata) then c.metadata else EmptyObject)
  }

  /** A short text never depends on what the model would have said. */
  lemma ShortTextIgnoresModel(id: string, fileName: string, text: string, a: Option<LlmClassification>, b: Option<LlmClassification>)
    requires |text| < MinClassifiableLength
    ensures ClassifyDocument(id, fileName, text, a) == ClassifyDocument(id, fileName, text, b)
  {
  }

  // ---------------------------------------------------------------------
  // classifyBatch
  // ---------------------------------------------------------------------

  datatype BatchItem = BatchItem(id: string, fileName: string, text: string)

  const BatchSize: nat := 5

  function Classify(item: BatchItem, ask: BatchItem -> Option<LlmClassification>): ClassifiedDocument {
    ClassifyDocument(item.id, item.fileName, item.text, ask(item))
  }

  /** `classifyBatch`: chunks of five classified one chunk at a time, with
      one pause between consecutive chunks. `ask` is the model's reply for
      each document; `pauses` counts the one-second waits. */
  method ClassifyBatch(documents: seq<BatchItem>, ask: BatchItem -> Option<LlmClassification>)
    returns (results: seq<ClassifiedDocument>, pauses: nat)
    ensures |results| == |documents|
    ensures forall i :: 0 <= i < |documents| ==> results[i] == Classify(documents[i], ask)
    ensures pauses == if |documents| == 0 then 0 else (|documents| - 1) / BatchSize
  {
    results := [];
    pauses := 0;
    var i := 0;
    ghost var k: nat := 0;  // batches classified so far
    while i < |documents|
      invariant i == BatchSize * k
      invariant k == 0 || i - BatchSize < |documents|
      invariant results == ClassifyRange(documents, ask, 0, Min(i, |documents|))
      invariant pauses == if k == 0 then 0 else if i < |documents| then k else k - 1
      decreases |documents| - i
    {
      var end := Min(i + BatchSize, |documents|);
      var batchResults := ClassifyRange(documents, ask, i, end);
      ClassifyRangeSplit(documents, ask, 0, i, end);
      results := results + batchResults;
      if i + BatchSize < |documents| {
        pauses := pauses + 1;
      }
      i := i + BatchSize;
      k := k + 1;
    }
    if |documents| > 0 {
      LastBatch(k, |documents|);
    }
  }

  /** `Promise.all(batch.map(...))` over the documents from `lo` to `hi`:
      their classifications, in order. */
  function ClassifyRange(documents: seq<BatchItem>, ask: BatchItem -> Option<LlmClassification>, lo: nat, hi: nat)
    : (r: seq<ClassifiedDocument>)
    requires lo <= hi <= |documents|
    ensures |r| == hi - lo && forall j :: 0 <= j < |r| ==> r[j] == Classify(documents[lo + j], ask)
  {
    seq(hi - lo, j requires 0 <= j < hi - lo => Classify(documents[lo + j], ask))
  }

  /** Two adjacent ranges classify as their union. */
  lemma ClassifyRangeSplit(documents: seq<BatchItem>, ask: BatchItem -> Option<LlmClassification>, lo: nat, mid: nat, hi: nat)
    requires lo <= mid <= hi <= |documents|
    ensures ClassifyRange(documents, ask, lo, mid) + ClassifyRange(documents, ask, mid, hi) == ClassifyRange(documents, ask, lo, hi)
  {
  }

  /** The first batch boundary at or past the end is one batch past the
      batch holding the last document. */
  lemma LastBatch(k: nat, n: nat)
    requires 0 < n <= BatchSize * k < n + BatchSize
    ensures k - 1 == (n - 1) / BatchSize
  {
  }
}
