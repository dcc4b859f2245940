/** The AI analysis service of the FastAPI backend
    (backend/app/services/ai_service.py): a case's analysis row moves to
    processing, the text of up to five uploaded documents is extracted, the
    model's reply is folded into a JSON result, and the row ends completed
    or failed; and the message list sent when chatting about one document.
    S3 downloads, the PDF reader, the model invocation and the clock are
    parameters. */
module AiService {
  import opened Common
  import opened Models

  const ModelId: string := "anthropic.claude-3-5-sonnet-20241022-v2:0"

  /** What fetching a document's PDF from S3 and opening it gave: the S3
      error's message, a PDF the reader could not open, or its pages' texts
      (an empty string for a page without text). */
  datatype PdfFetch = FetchFailed(message: string) | Unreadable | Pages(texts: seq<string>)

  // ---------------------------------------------------------------------
  // Text extraction
  // ---------------------------------------------------------------------

  const MaxPages: nat := 10

  /** Each non-empty page text followed by a newline. */
  function PageLines(pages: seq<string>): string {
    if pages == [] then ""
    else
      var last := pages[|pages| - 1];
      PageLines(pages[..|pages| - 1]) + (if last != "" then last + "\n" else "")
  }

  /** The text `_extract_with_pypdf` returns: the first ten pages only; a
      PDF the reader cannot open gives "". */
  function PypdfText(pdf: Option<seq<string>>): string {
    if pdf.None? then "" else PageLines(Take(pdf.value, MaxPages))
  }

  /** `_extract_with_pypdf`: reads at most ten pages, skipping empty ones. */
  method ExtractWithPypdf(pdf: Option<seq<string>>) returns (text: string)
    ensures text == PypdfText(pdf)
  {
    if pdf.None? {
      return "";
    }
    var pages := Take(pdf.value, MaxPages);
    text := "";
    var i := 0;
    while i < |pages|
      invariant 0 <= i <= |pages|
      invariant text == PageLines(pages[..i])
    {
      assert pages[..i + 1][..i] == pages[..i];
      if pages[i] != "" {
        text := text + pages[i] + "\n";
      }
      i := i + 1;
    }
    assert pages[..i] == pages;
  }

  /** Pages after the tenth never reach the text. */
  lemma LaterPagesIgnored(pages: seq<string>, more: seq<string>)
    requires |pages| >= MaxPages
    ensures PypdfText(Some(pages + more)) == PypdfText(Some(pages))
  {
    assert Take(pages + more, MaxPages) == Take(pages, MaxPages);
  }

  /** The extracted text is empty exactly when the first ten pages are. */
  lemma {:induction false} PageLinesEmptyIff(pages: seq<string>)
    ensures PageLines(pages) == "" <==> forall i :: 0 <= i < |pages| ==> pages[i] == ""
  {
    if pages != [] {
      var init := pages[..|pages| - 1];
      PageLinesEmptyIff(init);
      assert forall i :: 0 <= i < |init| ==> init[i] == pages[i];
    }
  }

  /** The text a fetch yields, or None when the download failed (that
      document is skipped). */
  function FetchedText(f: PdfFetch): Option<string> {
    match f
    case FetchFailed(_) => None
    case Unreadable => Some(PypdfText(None))
    case Pages(ps) => Some(PypdfText(Some(ps)))
  }

  /** A document contributes when its text has more than 50 characters
      once surrounding whitespace is stripped. */
  predicate Contributes(f: PdfFetch) {
    FetchedText(f).Some? && |Strip(FetchedText(f).value)| > 50
  }

  const SectionOpening: string := "--- Document: "
  const SectionClosing: string := " ---\n"

  function Section(d: DocumentRecord, text: string): string {
    SectionOpening + d.title + SectionClosing + text + "\n"
  }

  /** The per-document sections, in document order. */
  function Sections(docs: seq<DocumentRecord>, fetch: DocumentRecord -> PdfFetch): (r: seq<string>)
    ensures |r| <= |docs|
  {
    if docs == [] then []
    else
      var d := docs[|docs| - 1];
      Sections(docs[..|docs| - 1], fetch)
      + (if Contributes(fetch(d)) then [Section(d, FetchedText(fetch(d)).value)] else [])
  }

  /** Sections are exactly the contributing documents, each wrapped in its
      header, in order. */
  lemma {:induction false} SectionsAreContributors(docs: seq<DocumentRecord>, fetch: DocumentRecord -> PdfFetch)
    ensures |Sections(docs, fetch)| == Count(docs, (d: DocumentRecord) => Contributes(fetch(d)))
    ensures forall s :: s in Sections(docs, fetch) ==>
      exists d :: d in docs && Contributes(fetch(d)) && s == Section(d, FetchedText(fetch(d)).value)
  {
    if docs != [] {
      var init := docs[..|docs| - 1];
      var d := docs[|docs| - 1];
      SectionsAreContributors(init, fetch);
      assert init + [d] == docs;
      FilterConcat(init, [d], (d: DocumentRecord) => Contributes(fetch(d)));
      forall s | s in Sections(docs, fetch)
        ensures exists e :: e in docs && Contributes(fetch(e)) && s == Section(e, FetchedText(fetch(e)).value)
      {
        if s in Sections(init, fetch) {
          var e :| e in init && Contributes(fetch(e)) && s == Section(e, FetchedText(fetch(e)).value);
          assert e in docs;
        } else {
          assert d in docs;
        }
      }
    }
  }

  /** One more document adds its section exactly when it contributes. */
  lemma SectionsSnoc(docs: seq<DocumentRecord>, i: nat, fetch: DocumentRecord -> PdfFetch)
    requires i < |docs|
    ensures Sections(docs[..i + 1], fetch) == Sections(docs[..i], fetch)
      + if Contributes(fetch(docs[i])) then [Section(docs[i], FetchedText(fetch(docs[i])).value)] else []
  {
    assert docs[..i + 1][..i] == docs[..i];
  }

  /** `"\n\n".join(parts)`. */
  function JoinBlank(parts: seq<string>): string {
    if parts == [] then ""
    else if |parts| == 1 then parts[0]
    else JoinBlank(parts[..|parts| - 1]) + "\n\n" + parts[|parts| - 1]
  }

  /** One document's turn in the loop: its section, when it contributes. */
  method DocumentSection(d: DocumentRecord, f: PdfFetch) returns (part: Option<string>)
    ensures part.Some? <==> Contributes(f)
    ensures part.Some? ==> part.value == Section(d, FetchedText(f).value)
  {
    if f.FetchFailed? {
      return None;
    }
    var t := ExtractWithPypdf(if f.Pages? then Some(f.texts) else None);
    assert FetchedText(f) == Some(t);
    if |Strip(t)| > 50 {
      return Some(Section(d, t));
    }
    return None;
  }

  /** `_extract_text_from_documents`: fetches each document in turn,
      skipping failed downloads and short texts. */
  method ExtractTextFromDocuments(docs: seq<DocumentRecord>, fetch: DocumentRecord -> PdfFetch)
    returns (text: string)
    ensures text == JoinBlank(Sections(docs, fetch))
  {
    var parts: seq<string> := [];
    var i := 0;
    while i < |docs|
      invariant 0 <= i <= |docs|
      invariant parts == Sections(docs[..i], fetch)
    {
      SectionsSnoc(docs, i, fetch);
      var part := DocumentSection(docs[i], fetch(docs[i]));
      parts := parts + if part.Some? then [part.value] else [];
      i := i + 1;
    }
    assert docs[..i] == docs;
    text := JoinBlank(parts);
  }

  // ---------------------------------------------------------------------
  // The model's reply
  // ---------------------------------------------------------------------

  /** What the reply text parsed to: a JSON value (read directly or from a
      fenced or braced block), no JSON at all, or a block that did not parse
      (with the parser's message). A block found by either regular
      expression is braced, so it parses to an object or not at all; a value
      of another kind arises only when the whole reply text is itself a JSON
      array, string, number, boolean or null. */
  datatype ParsedReply = Parsed(value: Json) | NoJson | Unparsable(message: string)

  /** The model invocation: its failure message, or the reply text, how it
      parsed and the token usage (0 where the usage is absent). */
  datatype ClaudeReply =
    | InvokeFailed(message: string)
    | Replied(text: string, parsed: ParsedReply, inputTokens: int, outputTokens: int)

  /** Python's name for the type of a JSON value, as in its error messages. */
  function PyTypeName(j: Json): string {
    match j
    case JNull => "NoneType"
    case JBool(_) => "bool"
    case JNum(_) => "int"
    case JStr(_) => "str"
    case JArr(_) => "list"
    case JObj(_) => "dict"
  }

  /** Python's TypeError for `value["_meta"] = ...` on a value that is not
      a dict: a list refuses the string index, the rest refuse assignment. */
  function ItemAssignmentError(v: Json): string {
    if v.JArr? then "list indices must be integers or slices, not str"
    else "'" + PyTypeName(v) + "' object does not support item assignment"
  }

  function FailedResult(message: string): map<string, Json> {
    map["case_summary" := JStr("Analysis failed"), "urgency_level" := JStr("medium"), "error" := JStr(message)]
  }

  function Meta(tokens: int, analyzedAt: string): Json {
    JObj(map["model" := JStr(ModelId), "token_count" := JNum(tokens), "analyzed_at" := JStr(analyzedAt)])
  }

  /** `_analyze_with_claude`: the parsed object with `_meta` added; with no
      JSON, the first 500 characters as summary and "medium" urgency; any
      error (invocation, a block that does not parse, or a whole reply that
      parses to a non-object and so cannot take `_meta`) gives the failure
      result. */
  function AnalyzeWithClaude(reply: ClaudeReply, analyzedAt: string): (r: map<string, Json>)
    ensures reply.InvokeFailed? ==> r == FailedResult(reply.message)
    ensures reply.Replied? && reply.parsed.NoJson? ==>
      && "case_summary" in r && "urgency_level" in r && "key_legal_issues" in r && "deadline_reminders" in r
      && r["case_summary"] == JStr(Take(reply.text, 500)) && r["urgency_level"] == JStr("medium")
      && r["key_legal_issues"] == JArr([]) && r["deadline_reminders"] == JArr([])
    ensures reply.Replied? && reply.parsed.Parsed? && reply.parsed.value.JObj? ==>
      r == reply.parsed.value.fields["_meta" := Meta(reply.inputTokens + reply.outputTokens, analyzedAt)]
    ensures "_meta" in r <==> reply.Replied? && (reply.parsed.NoJson? || (reply.parsed.Parsed? && reply.parsed.value.JObj?))
    ensures reply.Replied? && reply.parsed.Parsed? && !reply.parsed.value.JObj? ==>
      r == FailedResult(ItemAssignmentError(reply.parsed.value))
    ensures reply.Replied? && reply.parsed.Unparsable? ==> r == FailedResult(reply.parsed.message)
  {
    match reply
    case InvokeFailed(m) => FailedResult(m)
    case Replied(text, parsed, inTok, outTok) =>
      var meta := Meta(inTok + outTok, analyzedAt);
      match parsed
      case Unparsable(m) => FailedResult(m)
      case NoJson =>
        map["case_summary" := JStr(Take(text, 500)), "urgency_level" := JStr("medium"),
            "key_legal_issues" := JArr([]), "deadline_reminders" := JArr([]), "_meta" := meta]
      case Parsed(v) =>
        if v.JObj? then v.fields["_meta" := meta]
        else FailedResult(ItemAssignmentError(v))
  }

  /** `result.get(key, default)`. */
  function Get(m: map<string, Json>, key: string, default: Json): Json {
    if key in m then m[key] else default
  }

  /** `result.get("_meta", {}).get("token_count", 0)`. */
  function TokenCount(m: map<string, Json>): Json {
    match Get(m, "_meta", JObj(map[]))
    case JObj(f) => Get(f, "token_count", JNum(0))
    case _ => JNum(0)
  }

  // ---------------------------------------------------------------------
  // The analysis row's lifecycle
  // ---------------------------------------------------------------------

  /** The row `analyze_case` commits first: an existing row of the case
      moves to processing (keeping its retry count and earlier results); a
      new one is created in processing with this service's model id. */
  function StartRow(existing: Option<AnalysisRecord>, caseId: Id, advocateId: Id, newId: Id, now: int): (a: AnalysisRecord)
    requires existing.Some? ==> existing.value.caseId == caseId
    ensures a.status == AnalysisProcessing && a.caseId == caseId
    ensures existing.Some? ==> a == existing.value.(status := AnalysisProcessing, updatedAt := now)
    ensures existing.None? ==>
      a.id == newId && a.advocateId == advocateId && a.modelVersion == ModelId && a.retryCount == 0
  {
    if existing.Some? then existing.value.(status := AnalysisProcessing, updatedAt := now)
    else NewAnalysis(newId, caseId, advocateId, now).(status := AnalysisProcessing, modelVersion := ModelId)
  }

  /** The documents analysed: the case's uploaded ones, at most five, in
      the order the query returns them. */
  function AnalysedDocuments(documents: seq<DocumentRecord>, caseId: Id): (r: seq<DocumentRecord>)
    ensures |r| == Min(5, Count(documents, (d: DocumentRecord) => d.caseId == caseId && d.uploadStatus == UploadCompleted))
    ensures forall d :: d in r ==> d in documents && d.caseId == caseId && d.uploadStatus == UploadCompleted
  {
    Take(Filter(documents, (d: DocumentRecord) => d.caseId == caseId && d.uploadStatus == UploadCompleted), 5)
  }

  /** How the rest of `analyze_case` ends: the row it commits last, or the
      commit is refused because the reply put a value in a column that
      cannot hold it (an urgency that is not one of the four levels, a
      summary that is a list or an object, a token count that is not a
      number). */
  datatype Finish = Committed(row: AnalysisRecord) | CommitRefused

  function Failed(a: AnalysisRecord, message: string, now: int): AnalysisRecord {
    a.(status := AnalysisFailed, errorMessage := Some(message), updatedAt := now)
  }

  /** The urgency column for a reply value: None for null. */
  function UrgencyColumn(j: Json): Option<Option<UrgencyLevel>> {
    match j
    case JNull => Some(None)
    case JStr(s) => if UrgencyFromName(s).Some? then Some(UrgencyFromName(s)) else None
    case _ => None
  }

  /** The text column `case_summary` for a reply value: None for null; a
      number or boolean is converted to its text on assignment (`42`,
      `true`); a list or object cannot be stored. */
  function SummaryColumn(j: Json): (r: Option<Option<string>>)
    ensures r.Some? <==> !j.JArr? && !j.JObj?
    ensures r == Some(None) <==> j.JNull?
    ensures j.JStr? ==> r == Some(Some(j.s))
    ensures j.JNum? ==> r == Some(Some(IntegerText(j.n)))
    ensures j.JBool? ==> r == Some(Some(if j.b then "true" else "false"))
  {
    match j
    case JNull => Some(None)
    case JStr(s) => Some(Some(s))
    case JNum(n) => Some(Some(IntegerText(n)))
    case JBool(b) => Some(Some(if b then "true" else "false"))
    case _ => None
  }

  function TokenColumn(j: Json): Option<Option<int>> {
    match j
    case JNull => Some(None)
    case JNum(n) => Some(Some(n))
    case _ => None
  }

  /** The token count `analyze_case` reads is always a number: the service
      sets `_meta` itself, or there is none and the default 0 applies. */
  lemma TokenCountIsNumber(reply: ClaudeReply, analyzedAt: string)
    ensures TokenCount(AnalyzeWithClaude(reply, analyzedAt)).JNum?
  {
    var result := AnalyzeWithClaude(reply, analyzedAt);
    if "_meta" in result {
      assert result["_meta"] == Meta(reply.inputTokens + reply.outputTokens, analyzedAt);
    }
  }

  /** Everything after the first commit, given the processing row. */
  function FinishAnalysis(row: AnalysisRecord, text: Option<string>, reply: ClaudeReply,
                          now: int, analyzedAt: string): (r: Finish)
    ensures text.None? ==> r == Committed(Failed(row, "No documents available", now))
    ensures text.Some? && |Strip(text.value)| < 50 ==> r == Committed(Failed(row, "Insufficient text extracted", now))
    ensures r.Committed? ==> r.row.status in {AnalysisCompleted, AnalysisFailed}
    ensures r.Committed? ==> r.row.id == row.id && r.row.caseId == row.caseId && r.row.advocateId == row.advocateId
    ensures r.Committed? ==> r.row.retryCount == row.retryCount
    ensures r.Committed? && r.row.status == AnalysisCompleted ==>
      text.Some? && |Strip(text.value)| >= 50 && r.row.processedAt == Some(now)
      && r.row.analysis == Some(JObj(AnalyzeWithClaude(reply, analyzedAt)))
    ensures text.Some? && |Strip(text.value)| >= 50 ==> r == StoreAnalysis(row, AnalyzeWithClaude(reply, analyzedAt), now)
    ensures r.Committed? ==>
      r.row.updatedAt == now && r.row.modelVersion == row.modelVersion && r.row.createdAt == row.createdAt
    ensures text.Some? && |Strip(text.value)| >= 50 ==>
      var result := AnalyzeWithClaude(reply, analyzedAt);
      var summary := Get(result, "case_summary", JStr(""));
      (r.CommitRefused? <==>
        UrgencyColumn(Get(result, "urgency_level", JStr("medium"))).None? || summary.JArr? || summary.JObj?)
  {
    if text.None? then Committed(Failed(row, "No documents available", now))
    else if |Strip(text.value)| < 50 then Committed(Failed(row, "Insufficient text extracted", now))
    else
      TokenCountIsNumber(reply, analyzedAt);
      StoreAnalysis(row, AnalyzeWithClaude(reply, analyzedAt), now)
  }

  /** The completed row's columns taken from the analysis result, or a
      refused commit when a value does not fit its column. */
  function StoreAnalysis(row: AnalysisRecord, result: map<string, Json>, now: int): (r: Finish)
    ensures TokenCount(result).JNum? ==>
      var summary := Get(result, "case_summary", JStr(""));
      (r.CommitRefused? <==>
        UrgencyColumn(Get(result, "urgency_level", JStr("medium"))).None? || summary.JArr? || summary.JObj?)
    ensures r.Committed? ==>
      && r.row.status == AnalysisCompleted && r.row.processedAt == Some(now)
      && r.row.analysis == Some(JObj(result))
    ensures r.Committed? ==>
      && r.row.id == row.id && r.row.caseId == row.caseId && r.row.advocateId == row.advocateId
      && r.row.retryCount == row.retryCount
    ensures r.Committed? ==>
      && UrgencyColumn(Get(result, "urgency_level", JStr("medium"))) == Some(r.row.urgencyLevel)
      && SummaryColumn(Get(result, "case_summary", JStr(""))) == Some(r.row.caseSummary)
      && TokenColumn(TokenCount(result)) == Some(r.row.tokenCount)
    ensures r.Committed? ==>
      && r.row.updatedAt == now && r.row.modelVersion == row.modelVersion
      && r.row.createdAt == row.createdAt && r.row.errorMessage == row.errorMessage
  {
    var urgency := UrgencyColumn(Get(result, "urgency_level", JStr("medium")));
    var summary := SummaryColumn(Get(result, "case_summary", JStr("")));
    var tokens := TokenColumn(TokenCount(result));
    if urgency.None? || summary.None? || tokens.None? then CommitRefused
    else Committed(row.(status := AnalysisCompleted, analysis := Some(JObj(result)),
                        urgencyLevel := urgency.value, caseSummary := summary.value,
                        processedAt := Some(now), tokenCount := tokens.value, updatedAt := now))
  }

  /** A reply object whose `case_summary` is a number or a boolean still
      completes the analysis when its urgency is a level: the text column
      stores the value's text. */
  lemma ScalarSummaryStoredAsText(row: AnalysisRecord, text: string, fields: map<string, Json>, inTok: int, outTok: int,
                                  now: int, analyzedAt: string)
    requires |Strip(text)| >= 50
    requires "case_summary" in fields && (fields["case_summary"].JNum? || fields["case_summary"].JBool?)
    requires "urgency_level" !in fields || UrgencyColumn(fields["urgency_level"]).Some?
    ensures var r := FinishAnalysis(row, Some(text), Replied("", Parsed(JObj(fields)), inTok, outTok), now, analyzedAt);
      && r.Committed? && r.row.status == AnalysisCompleted
      && r.row.caseSummary == SummaryColumn(fields["case_summary"]).value
      && r.row.caseSummary.Some? && r.row.caseSummary.value != ""
  {
    var reply := Replied("", Parsed(JObj(fields)), inTok, outTok);
    var result := AnalyzeWithClaude(reply, analyzedAt);
    assert result == fields["_meta" := Meta(inTok + outTok, analyzedAt)];
    assert Get(result, "case_summary", JStr("")) == fields["case_summary"];
    assert "urgency_level" !in fields ==> UrgencyColumn(JStr("medium")) == Some(Some(Medium)) by {
      assert UrgencyFromName("medium") == Some(Medium);
    }
    TokenCountIsNumber(reply, analyzedAt);
  }

  /** When the model cannot be reached, or its reply holds no JSON, the
      analysis still completes, with "medium" urgency. */
  lemma FallbacksCompleteAsMedium(row: AnalysisRecord, text: string, reply: ClaudeReply, now: int, analyzedAt: string)
    requires |Strip(text)| >= 50
    requires reply.InvokeFailed? || (reply.Replied? && reply.parsed.NoJson?)
    ensures var r := FinishAnalysis(row, Some(text), reply, now, analyzedAt);
      r.Committed? && r.row.status == AnalysisCompleted && r.row.urgencyLevel == Some(Medium)
  {
    assert UrgencyColumn(JStr("medium")) == Some(Some(Medium)) by {
      assert UrgencyFromName("medium") == Some(Medium);
    }
    if reply.InvokeFailed? {
      FailedResultColumns(reply.message);
    } else {
      NoJsonColumns(reply, analyzedAt);
    }
  }

  /** The failure result fills the urgency and summary columns and reports
      no token count. */
  lemma FailedResultColumns(message: string)
    ensures Get(FailedResult(message), "urgency_level", JStr("medium")) == JStr("medium")
    ensures Get(FailedResult(message), "case_summary", JStr("")) == JStr("Analysis failed")
    ensures TokenCount(FailedResult(message)) == JNum(0)
  {
    assert "_meta" !in FailedResult(message);
  }

  /** The no-JSON result fills the urgency and summary columns and carries a
      numeric token count. */
  lemma NoJsonColumns(reply: ClaudeReply, analyzedAt: string)
    requires reply.Replied? && reply.parsed.NoJson?
    ensures var r := AnalyzeWithClaude(reply, analyzedAt);
      Get(r, "urgency_level", JStr("medium")) == JStr("medium")
      && Get(r, "case_summary", JStr("")).JStr?
      && TokenCount(r) == JNum(reply.inputTokens + reply.outputTokens)
  {
  }

  /** The token count stored for a reply that parsed to an object is the
      usage reported with it. */
  lemma CompletedTokenCount(row: AnalysisRecord, text: string, reply: ClaudeReply, now: int, analyzedAt: string)
    requires reply.Replied? && reply.parsed.Parsed? && reply.parsed.value.JObj?
    requires var r := FinishAnalysis(row, Some(text), reply, now, analyzedAt);
      r.Committed? && r.row.status == AnalysisCompleted
    ensures FinishAnalysis(row, Some(text), reply, now, analyzedAt).row.tokenCount
      == Some(reply.inputTokens + reply.outputTokens)
  {
    var result := AnalyzeWithClaude(reply, analyzedAt);
    assert result["_meta"] == Meta(reply.inputTokens + reply.outputTokens, analyzedAt);
  }

  /** How `analyze_case` ends for the caller. */
  datatype Outcome = Returned(row: AnalysisRecord) | Raised

  /** A new row can be inserted: its case and advocate exist and its id is
      unused (otherwise the first commit fails, and so does the handler's). */
  predicate CanInsert(db: Db, caseId: Id, advocateId: Id, newId: Id) {
    && caseId in CaseIds(db.cases) && advocateId in UserIds(db.users)
    && forall a :: a in db.analyses ==> a.id != newId
  }

  lemma ReplaceAnalysisKeepsConsistent(d: Db, i: int, a: AnalysisRecord)
    requires Consistent(d) && 0 <= i < |d.analyses|
    requires a.id == d.analyses[i].id && a.caseId == d.analyses[i].caseId && a.advocateId == d.analyses[i].advocateId
    ensures Consistent(d.(analyses := d.analyses[i := a]))
  {
    var s := d.analyses[i := a];
    forall e | e in s ensures e.caseId in CaseIds(d.cases) && e.advocateId in UserIds(d.users) {
      var k :| 0 <= k < |s| && s[k] == e;
      assert d.analyses[k] in d.analyses;
    }
    var idKey := (x: AnalysisRecord) => x.id;
    var caseKey := (x: AnalysisRecord) => x.caseId;
    forall j, k | 0 <= j < k < |s| ensures idKey(s[j]) != idKey(s[k]) && caseKey(s[j]) != caseKey(s[k]) {
      assert idKey(d.analyses[j]) != idKey(d.analyses[k]);
      assert caseKey(d.analyses[j]) != caseKey(d.analyses[k]);
    }
  }

  lemma AppendAnalysisKeepsConsistent(d: Db, a: AnalysisRecord)
    requires Consistent(d) && CanInsert(d, a.caseId, a.advocateId, a.id)
    requires forall b :: b in d.analyses ==> b.caseId != a.caseId
    ensures Consistent(d.(analyses := d.analyses + [a]))
  {
    var s := d.analyses + [a];
    var idKey := (x: AnalysisRecord) => x.id;
    var caseKey := (x: AnalysisRecord) => x.caseId;
    forall j, k | 0 <= j < k < |s| ensures idKey(s[j]) != idKey(s[k]) && caseKey(s[j]) != caseKey(s[k]) {
      if k < |d.analyses| {
        assert idKey(d.analyses[j]) != idKey(d.analyses[k]);
        assert caseKey(d.analyses[j]) != caseKey(d.analyses[k]);
      } else {
        assert s[j] in d.analyses;
      }
    }
  }

  /** The analyses table with `row` stored: in place of the case's row at
      `i`, or appended when there was none. */
  function Store(analyses: seq<AnalysisRecord>, i: int, row: AnalysisRecord): seq<AnalysisRecord>
    requires i < |analyses|
  {
    if i >= 0 then analyses[i := row] else analyses + [row]
  }

  /** Storing a row for the case, in place of its existing row or as a new
      insertable one, keeps every constraint. */
  lemma StoreKeepsConsistent(d: Db, caseId: Id, advocateId: Id, newId: Id, i: int, a: AnalysisRecord)
    requires i == FirstIndex(d.analyses, (x: AnalysisRecord) => x.caseId == caseId)
    requires a.caseId == caseId
    requires i >= 0 ==> a.id == d.analyses[i].id && a.advocateId == d.analyses[i].advocateId
    requires i < 0 ==> CanInsert(d, caseId, advocateId, newId) && a.id == newId && a.advocateId == advocateId
    ensures Consistent(d) ==> Consistent(d.(analyses := Store(d.analyses, i, a)))
  {
    if Consistent(d) {
      if i >= 0 {
        ReplaceAnalysisKeepsConsistent(d, i, a);
      } else {
        AppendAnalysisKeepsConsistent(d, a);
      }
    }
  }

  /** `analyze_case`. A refused commit leaves the row as first committed
      (processing); the handler's own commit is refused too, so the
      exception reaches the caller. */
  method AnalyzeCase(db: Database, caseId: Id, advocateId: Id, fetch: DocumentRecord -> PdfFetch,
                     reply: ClaudeReply, newId: Id, now: int, analyzedAt: string)
    returns (r: Outcome)
    modifies db
    ensures var i := FirstIndex(old(db.analyses), (a: AnalysisRecord) => a.caseId == caseId);
      && (i < 0 && !CanInsert(old(db.Snapshot()), caseId, advocateId, newId) ==>
            r == Raised && db.Snapshot() == old(db.Snapshot()))
      && (i >= 0 || CanInsert(old(db.Snapshot()), caseId, advocateId, newId) ==>
            var row := StartRow(if i >= 0 then Some(old(db.analyses)[i]) else None, caseId, advocateId, newId, now);
            var docs := AnalysedDocuments(old(db.documents), caseId);
            var text := if docs == [] then None else Some(JoinBlank(Sections(docs, fetch)));
            var fin := FinishAnalysis(row, text, reply, now, analyzedAt);
            && (fin.Committed? ==>
                  r == Returned(fin.row)
                  && db.Snapshot() == old(db.Snapshot()).(analyses := Store(old(db.analyses), i, fin.row)))
            && (fin.CommitRefused? ==>
                  r == Raised
                  && db.Snapshot() == old(db.Snapshot()).(analyses := Store(old(db.analyses), i, row))))
    ensures Consistent(old(db.Snapshot())) ==> Consistent(db.Snapshot())
  {
    var i := FirstIndex(db.analyses, (a: AnalysisRecord) => a.caseId == caseId);
    if i < 0 && !CanInsert(db.Snapshot(), caseId, advocateId, newId) {
      return Raised;
    }
    var row := StartRow(if i >= 0 then Some(db.analyses[i]) else None, caseId, advocateId, newId, now);
    var before := db.Snapshot();
    var docs := AnalysedDocuments(db.documents, caseId);
    var text: Option<string> := None;
    if docs != [] {
      var t := ExtractTextFromDocuments(docs, fetch);
      text := Some(t);
    }
    var fin := FinishAnalysis(row, text, reply, now, analyzedAt);
    var stored := if fin.Committed? then fin.row else row;
    StoreKeepsConsistent(before, caseId, advocateId, newId, i, stored);
    db.analyses := Store(db.analyses, i, stored);
    assert db.Snapshot() == before.(analyses := Store(before.analyses, i, stored));
    r := if fin.Committed? then Returned(fin.row) else Raised;
  }

  /** A retry that completes does not clear the message of the attempt that
      failed before it: the completed row still carries that error. */
  lemma CompletedKeepsEarlierError(row: AnalysisRecord, text: Option<string>, reply: ClaudeReply,
                                   now: int, analyzedAt: string)
    ensures var r := FinishAnalysis(row, text, reply, now, analyzedAt);
      r.Committed? && r.row.status == AnalysisCompleted ==> r.row.errorMessage == row.errorMessage
  {
  }

  // ---------------------------------------------------------------------
  // Chat about one document
  // ---------------------------------------------------------------------

  datatype Role = User | Assistant
  datatype Message = Message(role: Role, content: string)

  const Acknowledgement: string := "I've read the document. I'm ready to answer your questions about it."

  const ContextOpening: string := "You are analyzing a legal document titled \""
  const ContextIntro: string := "\".\n\nDocument content (first 30,000 characters):\n"
  const ContextClosing: string := "\n\nAnswer questions about this document accurately and concisely. \nIf asked about information not in the document, say so clearly."

  function ContextMessage(title: string, text: string): Message {
    Message(User, ContextOpening + title + ContextIntro + Take(text, 30000) + ContextClosing)
  }

  /** The message list: the document as context, the fixed acknowledgement,
      the last five messages of the conversation, then the new question. */
  function ChatMessageList(title: string, text: string, history: seq<Message>, message: string): (r: seq<Message>)
    ensures |r| == 3 + Min(5, |history|)
    ensures r[..2] == ChatPreamble(title, text)
    ensures r[2..|r| - 1] == TakeLast(history, 5)
    ensures r[|r| - 1] == Message(User, message)
  {
    ChatPreamble(title, text) + TakeLast(history, 5) + [Message(User, message)]
  }

  /** The two opening messages: the document as context, then the fixed
      acknowledgement. */
  function ChatPreamble(title: string, text: string): (r: seq<Message>)
    ensures |r| == 2 && r[0].role == User && r[1] == Message(Assistant, Acknowledgement)
  {
    [ContextMessage(title, text), Message(Assistant, Acknowledgement)]
  }

  /** Builds the message list, appending the recent history one message
      at a time. */
  method ChatMessages(title: string, text: string, history: seq<Message>, message: string)
    returns (msgs: seq<Message>)
    ensures msgs == ChatMessageList(title, text, history, message)
  {
    var head := ChatPreamble(title, text);
    msgs := head;
    var recent := TakeLast(history, 5);
    for k := 0 to |recent|
      invariant msgs == head + recent[..k]
    {
      assert recent[..k + 1] == recent[..k] + [recent[k]];
      msgs := msgs + [recent[k]];
    }
    assert recent[..|recent|] == recent;
    msgs := msgs + [Message(User, message)];
  }

  /** The model's answer to the chat: its text, or the failure message. */
  datatype ChatReply = ChatFailed(message: string) | Answer(text: string)

  function Apology(message: string): string { "Sorry, I encountered an error: " + message }

  /** The text returned for the model's answer. */
  function ReplyText(reply: ChatReply): string {
    if reply.Answer? then reply.text else Apology(reply.message)
  }

  /** `chat_with_document`: fixed answers for an unknown document and for a
      document without enough text; errors become an apology. */
  method ChatWithDocument(documents: seq<DocumentRecord>, documentId: Id, message: string, history: seq<Message>,
                          fetch: DocumentRecord -> PdfFetch, ask: seq<Message> -> ChatReply)
    returns (answer: string)
    ensures FindDocument(documents, documentId).None? ==> answer == "Document not found"
    ensures FindDocument(documents, documentId).Some? ==>
      var d := FindDocument(documents, documentId).value;
      var f := fetch(d);
      && (f.FetchFailed? ==> answer == Apology(f.message))
      && (!f.FetchFailed? && |Strip(FetchedText(f).value)| < 50 ==> answer == "Could not extract text from document")
      && (!f.FetchFailed? && |Strip(FetchedText(f).value)| >= 50 ==>
            answer == ReplyText(ask(ChatMessageList(d.title, FetchedText(f).value, history, message))))
  {
    var doc := FindDocument(documents, documentId);
    if doc.None? {
      return "Document not found";
    }
    var f := fetch(doc.value);
    if f.FetchFailed? {
      return Apology(f.message);
    }
    var text := ExtractWithPypdf(if f.Pages? then Some(f.texts) else None);
    assert text == FetchedText(f).value;
    if |Strip(text)| < 50 {
      return "Could not extract text from document";
    }
    var msgs := ChatMessages(doc.value.title, text, history, message);
    answer := ReplyText(ask(msgs));
  }
}
