/** Text extraction from an uploaded PDF
    (backend/app/api/v1/endpoints/ocr.py). The PDF library is a parameter:
    either the text of each page, or the message of the exception it
    raised while reading. */
module OcrEndpoint {
  import opened Common

  datatype ExtractedText = ExtractedText(text: string, pages: nat, filename: string)

  const OnlyPdf: Failure := Failure(400, "Only PDF files supported")
  const NoTextDetail: string := "No text found in PDF. File might be scanned image."

  /** What reading the PDF gave: page texts, or the exception's message. */
  type PdfRead = Result<seq<string>, string>

  /** Each page's text followed by a blank line, in page order. */
  function Joined(pages: seq<string>): (r: string)
    ensures |r| >= 2 * |pages|
  {
    if pages == [] then "" else Joined(pages[..|pages| - 1]) + pages[|pages| - 1] + "\n\n"
  }

  /** Builds the text page by page, as the endpoint's loop does. */
  method ConcatPages(pages: seq<string>) returns (text: string)
    ensures text == Joined(pages)
  {
    text := "";
    var i := 0;
    while i < |pages|
      invariant 0 <= i <= |pages|
      invariant text == Joined(pages[..i])
    {
      assert pages[..i + 1][..i] == pages[..i];
      text := text + pages[i] + "\n\n";
      i := i + 1;
    }
    assert pages[..i] == pages;
  }

  /** The joined text is blank exactly when every page's text is. */
  lemma {:induction false} JoinedBlankIffPagesBlank(pages: seq<string>)
    ensures AllSpace(Joined(pages)) <==> forall i :: 0 <= i < |pages| ==> AllSpace(pages[i])
  {
    if pages != [] {
      var init := pages[..|pages| - 1];
      var last := pages[|pages| - 1];
      JoinedBlankIffPagesBlank(init);
      AllSpaceConcat(Joined(init), last);
      AllSpaceConcat(Joined(init) + last, "\n\n");
      assert forall i :: 0 <= i < |init| ==> init[i] == pages[i];
    }
  }

  lemma AllSpaceConcat(a: string, b: string)
    ensures AllSpace(a + b) <==> AllSpace(a) && AllSpace(b)
  {
    if AllSpace(a + b) {
      forall i | 0 <= i < |b| ensures IsSpace(b[i]) { assert (a + b)[|a| + i] == b[i]; }
      forall i | 0 <= i < |a| ensures IsSpace(a[i]) { assert (a + b)[i] == a[i]; }
    }
  }

  /** `POST /ocr/extract` as written: the "no text" refusal is raised inside
      the `try` whose `except Exception` turns every error into a 500, so
      the client sees 500 with the 400's text in the detail. */
  function ExtractTextAsWritten(filename: string, pdf: PdfRead): (r: Result<ExtractedText, Failure>)
    ensures !EndsWith(filename, ".pdf") ==> r == Err(OnlyPdf)
    ensures r.Err? && r.error != OnlyPdf ==> r.error.status == 500
    ensures EndsWith(filename, ".pdf") && pdf.Err? ==> r == Err(Failure(500, "OCR failed: " + pdf.error))
    ensures EndsWith(filename, ".pdf") && pdf.Ok? ==>
      (r == Err(Failure(500, "OCR failed: 400: " + NoTextDetail)) <==> forall i :: 0 <= i < |pdf.value| ==> AllSpace(pdf.value[i]))
    ensures r.Ok? ==> pdf.Ok? && r.value == ExtractedText(Joined(pdf.value), |pdf.value|, filename)
  {
    if !EndsWith(filename, ".pdf") then Err(OnlyPdf)
    else if pdf.Err? then Err(Failure(500, "OCR failed: " + pdf.error))
    else
      JoinedBlankIffPagesBlank(pdf.value);
      StripEmptyIffAllSpace(Joined(pdf.value));
      if Strip(Joined(pdf.value)) == "" then Err(Failure(500, "OCR failed: 400: " + NoTextDetail))
      else Ok(ExtractedText(Joined(pdf.value), |pdf.value|, filename))
  }

  /** A PDF whose pages carry no text (a scan) is reported as a server
      failure, not as the client error the endpoint raises. */
  lemma ScannedPdfIsServerError(filename: string, pages: seq<string>)
    requires EndsWith(filename, ".pdf")
    requires forall i :: 0 <= i < |pages| ==> AllSpace(pages[i])
    ensures ExtractTextAsWritten(filename, Ok(pages)) == Err(Failure(500, "OCR failed: 400: " + NoTextDetail))
  {
    JoinedBlankIffPagesBlank(pages);
    StripEmptyIffAllSpace(Joined(pages));
  }

  /** Corrected `POST /ocr/extract`: the refusal kept as the 400 it is raised as:
      400 for a name not ending in ".pdf" (case-sensitive), 400 when no page
      has text, 500 when the PDF cannot be read; otherwise the joined text
      and the page count. */
  function ExtractTextOutcome(filename: string, pdf: PdfRead): (r: Result<ExtractedText, Failure>)
    ensures !EndsWith(filename, ".pdf") ==> r == Err(OnlyPdf)
    ensures EndsWith(filename, ".pdf") && pdf.Err? ==> r == Err(Failure(500, "OCR failed: " + pdf.error))
    ensures EndsWith(filename, ".pdf") && pdf.Ok? ==>
      (r == Err(Failure(400, NoTextDetail)) <==> forall i :: 0 <= i < |pdf.value| ==> AllSpace(pdf.value[i]))
    ensures r.Ok? ==> pdf.Ok? && r.value == ExtractedText(Joined(pdf.value), |pdf.value|, filename)
  {
    if !EndsWith(filename, ".pdf") then Err(OnlyPdf)
    else if pdf.Err? then Err(Failure(500, "OCR failed: " + pdf.error))
    else
      JoinedBlankIffPagesBlank(pdf.value);
      StripEmptyIffAllSpace(Joined(pdf.value));
      if Strip(Joined(pdf.value)) == "" then Err(Failure(400, NoTextDetail))
      else Ok(ExtractedText(Joined(pdf.value), |pdf.value|, filename))
  }

  /** The endpoint as written, building the text with its loop; the "no
      text" refusal comes out as the 500 of the surrounding handler. */
  method ExtractText(filename: string, pdf: PdfRead) returns (r: Result<ExtractedText, Failure>)
    ensures r == ExtractTextAsWritten(filename, pdf)
  {
    if !EndsWith(filename, ".pdf") {
      return Err(OnlyPdf);
    }
    if pdf.Err? {
      return Err(Failure(500, "OCR failed: " + pdf.error));
    }
    var text := ConcatPages(pdf.value);
    if Strip(text) == "" {
      return Err(Failure(500, "OCR failed: 400: " + NoTextDetail));
    }
    r := Ok(ExtractedText(text, |pdf.value|, filename));
  }

  /** Both versions agree on every request except a readable PDF without text. */
  lemma AsWrittenDiffersOnlyOnBlankPdf(filename: string, pdf: PdfRead)
    requires !(EndsWith(filename, ".pdf") && pdf.Ok? && Strip(Joined(pdf.value)) == "")
    ensures ExtractTextAsWritten(filename, pdf) == ExtractTextOutcome(filename, pdf)
  {
  }
}
