/** Small webapp helpers: file-name extension and PDF upload checks
    (webapp/src/lib/utils/file.ts), day counting for hearings
    (webapp/src/lib/utils/date.ts) and display labels
    (webapp/src/lib/utils/format.ts). Times are integer milliseconds and
    the current time is a parameter. */
module WebUtils {
  import opened Common

  // ---------------------------------------------------------------------
  // file.ts
  // ---------------------------------------------------------------------

  /** JavaScript `x >>> 0`: the value modulo 2^32. */
  function ToUint32(x: int): (r: int)
    ensures 0 <= r < 0x1_0000_0000
    ensures 0 <= x < 0x1_0000_0000 ==> r == x
    ensures x == -1 ==> r == 0xFFFF_FFFF
    ensures x == -2 ==> r == 0xFFFF_FFFE
  {
    x % 0x1_0000_0000
  }

  /** `s.slice(start)` for a non-negative start. */
  function SliceFrom(s: string, start: nat): (r: string)
    ensures start >= |s| ==> r == ""
    ensures start < |s| ==> r == s[start..]
  {
    if start >= |s| then "" else s[start..]
  }

  /** `getFileExtension`: slices from `(lastIndexOf('.') - 1 >>> 0) + 2`. */
  function FileExtension(filename: string): (r: string)
    ensures |r| <= |filename| && r == filename[|filename| - |r|..]
  {
    SliceFrom(filename, ToUint32(LastIndexOf(filename, '.') - 1) + 2)
  }

  /** The extension is the text after the last '.', and it is empty when
      there is no '.', when the only '.' opens the name (".env") or when
      the name ends in '.'. */
  lemma FileExtensionCases(filename: string)
    requires |filename| < 0x1_0000_0000
    ensures var dot := LastIndexOf(filename, '.');
      (dot >= 1 ==> FileExtension(filename) == filename[dot + 1..])
      && (dot <= 0 ==> FileExtension(filename) == "")
      && '.' !in FileExtension(filename)
  {
    var dot := LastIndexOf(filename, '.');
    if dot >= 1 {
      assert ToUint32(dot - 1) == dot - 1;
      var r := filename[dot + 1..];
      forall k | 0 <= k < |r| ensures r[k] != '.' {
        assert r[k] == filename[dot + 1 + k];
      }
    } else if dot == 0 {
      assert ToUint32(-1) == 0xFFFF_FFFF;
    } else {
      assert ToUint32(-2) == 0xFFFF_FFFE;
    }
  }

  const MaxPdfBytes: int := 50 * 1024 * 1024

  /** `validatePDF`'s result: `error` is present only when not valid. */
  datatype PdfCheck = PdfCheck(valid: bool, error: Option<string>)

  /** `validatePDF`: the MIME type first, then the size. */
  function ValidatePdf(mimeType: string, size: int): (r: PdfCheck)
    ensures r.valid <==> mimeType == "application/pdf" && size <= MaxPdfBytes
    ensures r.valid <==> r.error.None?
    ensures mimeType != "application/pdf" ==> r.error == Some("File must be a PDF")
    ensures mimeType == "application/pdf" && size > MaxPdfBytes ==> r.error == Some("File size must not exceed 50MB")
  {
    if mimeType != "application/pdf" then PdfCheck(false, Some("File must be a PDF"))
    else if size > MaxPdfBytes then PdfCheck(false, Some("File size must not exceed 50MB"))
    else PdfCheck(true, None)
  }

  // ---------------------------------------------------------------------
  // date.ts
  // ---------------------------------------------------------------------

  const MsPerDay: int := 1000 * 60 * 60 * 24

  /** `getDaysUntil`: `Math.ceil((target - now) / day)`. */
  function DaysUntil(target: int, now: int): (r: int)
    ensures (r - 1) * MsPerDay < target - now <= r * MsPerDay
  {
    -((now - target) / MsPerDay)
  }

  /** A day count is determined by its bounds. */
  lemma DaysUntilUnique(target: int, now: int, n: int)
    requires (n - 1) * MsPerDay < target - now <= n * MsPerDay
    ensures DaysUntil(target, now) == n
  {
  }

  /** Anything less than a full day ago counts as 0 days away; a target
      one millisecond ahead is 1 day away. */
  lemma DaysUntilNearNow(target: int, now: int)
    ensures now - MsPerDay < target <= now ==> DaysUntil(target, now) == 0
    ensures target == now + 1 ==> DaysUntil(target, now) == 1
  {
    if now - MsPerDay < target <= now { DaysUntilUnique(target, now, 0); }
    if target == now + 1 { DaysUntilUnique(target, now, 1); }
  }

  /** A later target never gives fewer days. */
  lemma DaysUntilMonotone(t1: int, t2: int, now: int)
    requires t1 <= t2
    ensures DaysUntil(t1, now) <= DaysUntil(t2, now)
  {
  }

  /** `isUpcoming(date, days)`. */
  predicate IsUpcoming(target: int, now: int, days: int) {
    0 <= DaysUntil(target, now) <= days
  }

  /** `isUpcoming(date)` with the default window of 7 days. */
  predicate IsUpcomingDefault(target: int, now: int) {
    IsUpcoming(target, now, 7)
  }

  /** The window in milliseconds: from just under a day ago up to the end
      of the `days`-th day ahead. */
  lemma UpcomingWindow(target: int, now: int, days: nat)
    ensures IsUpcoming(target, now, days) <==> now - MsPerDay < target <= now + days * MsPerDay
  {
  }

  // ---------------------------------------------------------------------
  // format.ts
  // ---------------------------------------------------------------------

  const CaseStatusLabels: map<string, string> := map[
    "FILED" := "Filed", "REGISTERED" := "Registered", "PENDING" := "Pending",
    "DISPOSED" := "Disposed", "TRANSFERRED" := "Transferred"]

  const CategoryLabels: map<string, string> := map[
    "CASE_FILE" := "Case File", "ANNEXURE" := "Annexure", "JUDGMENT" := "Judgment",
    "ORDER" := "Order", "MISC" := "Miscellaneous"]

  const UploadStatusLabels: map<string, string> := map[
    "PENDING" := "Pending", "UPLOADING" := "Uploading", "COMPLETED" := "Completed", "FAILED" := "Failed"]

  /** What a property read on a plain JavaScript object can give: a string
      stored in the object, or a member inherited from `Object.prototype`. */
  datatype JsValue = JsString(s: string) | JsFunction(name: string) | JsPrototypeObject

  /** The members every object literal inherits from `Object.prototype`. */
  const ObjectPrototypeMethods: set<string> := {
    "constructor", "hasOwnProperty", "isPrototypeOf", "propertyIsEnumerable",
    "toString", "toLocaleString", "valueOf",
    "__defineGetter__", "__defineSetter__", "__lookupGetter__", "__lookupSetter__"}

  /** `table[key] || key` as written: the read also finds the inherited
      members, which are truthy, so they are returned instead of the key. */
  function LabelAsWritten(table: map<string, string>, key: string): (r: JsValue)
    ensures key in table && table[key] != "" ==> r == JsString(table[key])
    ensures key !in table && key in ObjectPrototypeMethods ==> r == JsFunction(key)
    ensures key !in table && key !in ObjectPrototypeMethods && key != "__proto__" ==> r == JsString(key)
  {
    if key in table && table[key] != "" then JsString(table[key])
    else if key in ObjectPrototypeMethods then JsFunction(key)
    else if key == "__proto__" then JsPrototypeObject
    else JsString(key)
  }

  /** `formatDocumentCategory` as written. */
  function FormatDocumentCategoryAsWritten(category: string): (r: JsValue)
    ensures category in CategoryLabels ==> r == JsString(CategoryLabels[category])
  {
    LabelAsWritten(CategoryLabels, category)
  }

  /** A category string that names an inherited member yields a function,
      not a label or the string itself. */
  lemma ConstructorCategoryIsAFunction()
    ensures FormatDocumentCategoryAsWritten("constructor") == JsFunction("constructor")
    ensures FormatDocumentCategoryAsWritten("__proto__") == JsPrototypeObject
  {
  }

  /** The lookup with own properties only: the label for a listed key,
      the key itself for anything else. */
  function Label(table: map<string, string>, key: string): (r: string)
    ensures key in table ==> r == table[key]
    ensures key !in table ==> r == key
  {
    if key in table then table[key] else key
  }

  /** The two lookups agree on every key that is not an inherited member
      name (all the labels are non-empty). */
  lemma LabelAgreesAwayFromPrototype(table: map<string, string>, key: string)
    requires forall k :: k in table ==> table[k] != ""
    requires key in table || (key !in ObjectPrototypeMethods && key != "__proto__")
    ensures LabelAsWritten(table, key) == JsString(Label(table, key))
  {
  }

  /** Corrected `formatCaseStatus` (own keys only): the five upper-case
      statuses get labels. */
  function FormatCaseStatus(status: string): (r: string)
    ensures status in CaseStatusLabels ==> r == CaseStatusLabels[status]
    ensures status !in CaseStatusLabels ==> r == status
  {
    Label(CaseStatusLabels, status)
  }

  /** Corrected `formatDocumentCategory` (own keys only): the five
      upper-case categories get labels; as written, see
      `FormatDocumentCategoryAsWritten`. */
  function FormatDocumentCategory(category: string): (r: string)
    ensures category in CategoryLabels ==> r == CategoryLabels[category]
    ensures category !in CategoryLabels ==> r == category
  {
    Label(CategoryLabels, category)
  }

  /** Corrected `formatUploadStatus` (own keys only): the four upper-case
      statuses get labels; as written it is `LabelAsWritten` on the same
      table. */
  function FormatUploadStatus(status: string): (r: string)
    ensures status in UploadStatusLabels ==> r == UploadStatusLabels[status]
    ensures status !in UploadStatusLabels ==> r == status
  {
    Label(UploadStatusLabels, status)
  }

  /** No lower-case ASCII letter occurs in `s`. */
  predicate NoLowerCase(s: string) {
    forall j :: 0 <= j < |s| ==> !('a' <= s[j] <= 'z')
  }

  /** The lookups are case-sensitive: every key is upper case, so any name
      holding a lower-case letter, such as the backend's `case_file` or
      `filed`, passes through unchanged. */
  lemma LowerCaseNamesPassThrough(name: string, i: int)
    requires 0 <= i < |name| && 'a' <= name[i] <= 'z'
    ensures FormatDocumentCategory(name) == name
    ensures FormatCaseStatus(name) == name
    ensures FormatUploadStatus(name) == name
  {
    assert !NoLowerCase(name);
    assert forall k :: k in CaseStatusLabels ==> NoLowerCase(k);
    assert forall k :: k in CategoryLabels ==> NoLowerCase(k);
    assert forall k :: k in UploadStatusLabels ==> NoLowerCase(k);
  }

  /** Every label is non-empty, so `|| key` never replaces a listed label. */
  lemma LabelsNonEmpty()
    ensures forall k :: k in CaseStatusLabels ==> CaseStatusLabels[k] != ""
    ensures forall k :: k in CategoryLabels ==> CategoryLabels[k] != ""
    ensures forall k :: k in UploadStatusLabels ==> UploadStatusLabels[k] != ""
  {
  }
}
