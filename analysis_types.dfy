/** The type guard and converters for stored AI analyses
    (webapp/src/types/analysis.ts). The `analysis` column is a JSON value;
    the other columns of an `AIAnalysis` row are carried through untouched,
    so they are kept as one opaque map. */
module AnalysisTypes {
  import opened Common

  /** `isAnalysisContent`: a JSON object with both required keys whose
      `keyLegalIssues` is an array. An array is an `object` to `typeof` but
      has neither key, so it fails. */
  predicate IsAnalysisContent(j: Json) {
    Truthy(j) && j.JObj?
    && "caseTypeClassification" in j.fields
    && "keyLegalIssues" in j.fields
    && j.fields["keyLegalIssues"].JArr?
  }

  /** Content that passes the guard is an object holding both keys. */
  lemma GuardShape(j: Json)
    ensures IsAnalysisContent(j) <==>
      exists f: map<string, Json> :: j == JObj(f) && "caseTypeClassification" in f && "keyLegalIssues" in f && f["keyLegalIssues"].JArr?
  {
    if j.JObj? { assert j == JObj(j.fields); }
  }

  /** Only the two keys are inspected: adding or changing any other field
      keeps the verdict, and so does changing `caseTypeClassification`. */
  lemma GuardIgnoresOtherFields(f: map<string, Json>, k: string, v: Json)
    requires k != "keyLegalIssues"
    ensures IsAnalysisContent(JObj(f)) ==> IsAnalysisContent(JObj(f[k := v]))
    ensures k != "caseTypeClassification" ==> (IsAnalysisContent(JObj(f)) <==> IsAnalysisContent(JObj(f[k := v])))
  {
  }

  /** `parseAnalysisContent`: the stored value itself when it passes the
      guard, `null` otherwise (nothing in the body can throw). */
  function ParseAnalysisContent(json: Json): (r: Option<Json>)
    ensures r.Some? <==> IsAnalysisContent(json)
    ensures r.Some? ==> r.value == json
  {
    if !Truthy(json) then None
    else if IsAnalysisContent(json) then Some(json)
    else None
  }

  /** Falsy stored values (`null`, `false`, `0`, `""`) give no content. */
  lemma FalsyHasNoContent(json: Json)
    requires !Truthy(json)
    ensures ParseAnalysisContent(json) == None
  {
  }

  /** `toJsonValue`: analysis content is stored as it is. */
  function ToJsonValue(content: Json): (r: Json)
    requires IsAnalysisContent(content)
    ensures IsAnalysisContent(r)
    ensures ParseAnalysisContent(r) == Some(content)
  {
    content
  }

  /** An `AIAnalysis` row: the other columns and the JSON `analysis`. */
  datatype AiAnalysisRow = AiAnalysisRow(columns: map<string, Json>, analysis: Json)

  /** `AIAnalysisWithContent`: the same columns, the parsed content or none. */
  datatype AiAnalysisWithContent = AiAnalysisWithContent(columns: map<string, Json>, analysis: Option<Json>)

  /** `parseAIAnalysis`: every other column is copied; `analysis` is parsed. */
  function ParseAiAnalysis(row: AiAnalysisRow): (r: AiAnalysisWithContent)
    ensures r.columns == row.columns
    ensures r.analysis.Some? <==> IsAnalysisContent(row.analysis)
    ensures r.analysis.Some? ==> r.analysis.value == row.analysis
  {
    AiAnalysisWithContent(row.columns, ParseAnalysisContent(row.analysis))
  }

  /** Content written with `toJsonValue` reads back unchanged. */
  lemma StoredContentRoundTrip(columns: map<string, Json>, content: Json)
    requires IsAnalysisContent(content)
    ensures ParseAiAnalysis(AiAnalysisRow(columns, ToJsonValue(content))) == AiAnalysisWithContent(columns, Some(content))
  {
  }
}
