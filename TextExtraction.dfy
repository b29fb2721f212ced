/** The back-end cascade of `_extract_text_from_pdf`: pdfplumber, then
    PyPDF2, then tesseract OCR. The PDF libraries and the OCR engine are not
    modelled; each run is given as what it produced. `text.strip()` is falsy
    exactly when the text is blank (`Text.StripEmptyIffBlank`), so the
    cascade tests `IsBlank`. */
module TextExtraction {
  import opened Wrappers
  import opened Text
  import opened Patient

  /** One run of pdfplumber or PyPDF2: what `extract_text()` returned for each
      page visited, and whether an exception ended the run (opening the file
      or a page). Pages after the exception are not visited. */
  datatype BackendRun = BackendRun(pages: seq<Option<string>>, raised: bool)

  /** The OCR step: the tesseract output of each page, or the text of the
      exception it raised. */
  datatype OcrRun = OcrPages(pageTexts: seq<string>) | OcrRaised(errorText: string)

  datatype Extracted = Extracted(text: string, backend: string)

  const NoTextMessage: string := "Could not extract text from PDF"
  const TesseractHint: string :=
    "Could not extract text from PDF. This appears to be an image-based PDF that requires OCR. "
    + "Please install Tesseract OCR: 'sudo apt install tesseract-ocr' on Ubuntu/Debian or "
    + "'brew install tesseract' on macOS."

  /** What one page adds to the running text: its text and a newline when
      `extract_text()` returned something truthy. */
  function PagePiece(p: Option<string>): string {
    if Truthy(p) then p.value + "\n" else ""
  }

  /** `text += page_text + "\n"` over the pages, in order. */
  function Accumulate(text: string, pages: seq<Option<string>>): string
    decreases |pages|
  {
    if pages == [] then text else Accumulate(text + PagePiece(pages[0]), pages[1..])
  }

  /** The accumulated text is blank exactly when the start and every page are. */
  lemma {:induction false} AccumulateBlank(text: string, pages: seq<Option<string>>)
    ensures IsBlank(Accumulate(text, pages)) <==>
      IsBlank(text) && forall i :: 0 <= i < |pages| ==> IsBlank(PagePiece(pages[i]))
    decreases |pages|
  {
    if pages != [] {
      AccumulateBlank(text + PagePiece(pages[0]), pages[1..]);
      BlankConcat(text, PagePiece(pages[0]));
      assert forall i :: 1 <= i < |pages| ==> pages[i] == pages[1..][i - 1];
    }
  }

  /** The block OCR contributes for page `number`, when its text is not blank. */
  function OcrBlock(number: nat, pageText: string): string {
    "Page " + DecimalString(number) + ":\n" + pageText + "\n\n"
  }

  /** `_extract_text_with_ocr`: pages numbered from `first`, blank pages skipped. */
  function OcrAccumulate(text: string, pages: seq<string>, first: nat): string
    decreases |pages|
  {
    if pages == [] then text
    else
      var t := if IsBlank(pages[0]) then text else text + OcrBlock(first, pages[0]);
      OcrAccumulate(t, pages[1..], first + 1)
  }

  /** The OCR text is blank exactly when every page's text is. */
  lemma {:induction false} OcrAccumulateBlank(text: string, pages: seq<string>, first: nat)
    ensures IsBlank(OcrAccumulate(text, pages, first)) <==>
      IsBlank(text) && forall i :: 0 <= i < |pages| ==> IsBlank(pages[i])
    decreases |pages|
  {
    if pages != [] {
      var t := if IsBlank(pages[0]) then text else text + OcrBlock(first, pages[0]);
      OcrAccumulateBlank(t, pages[1..], first + 1);
      if !IsBlank(pages[0]) {
        var b := OcrBlock(first, pages[0]);
        assert b[0] == 'P';
        BlankConcat(text, b);
      }
      assert forall i :: 1 <= i < |pages| ==> pages[i] == pages[1..][i - 1];
    }
  }

  /** The cascade: the first back-end that finishes with non-blank text wins.
      Text accumulates across pdfplumber and PyPDF2; OCR replaces it. An OCR
      exception mentioning tesseract becomes the installation hint; otherwise
      text gathered before an exception is still returned, with method "none". */
  function Cascade(plumber: BackendRun, pypdf: BackendRun, ocr: OcrRun): Result<Extracted, string> {
    var t1 := Accumulate("", plumber.pages);
    if !plumber.raised && !IsBlank(t1) then Ok(Extracted(t1, "pdfplumber"))
    else
      var t2 := Accumulate(t1, pypdf.pages);
      if !pypdf.raised && !IsBlank(t2) then Ok(Extracted(t2, "pypdf2"))
      else
        match ocr
        case OcrPages(ps) =>
          var t3 := OcrAccumulate("", ps, 1);
          if !IsBlank(t3) then Ok(Extracted(t3, "tesseract")) else Err(NoTextMessage)
        case OcrRaised(msg) =>
          if Contains(Lower(msg), "tesseract") then Err(TesseractHint)
          else if IsBlank(t2) then Err(NoTextMessage)
          else Ok(Extracted(t2, "none"))
  }

  predicate IsExtractionMethod(m: string) {
    m == "pdfplumber" || m == "pypdf2" || m == "tesseract" || m == "none"
  }

  /** A successful cascade always returns non-blank text under one of the
      four method names; a failed one raises one of the two messages. */
  lemma CascadeOutcome(plumber: BackendRun, pypdf: BackendRun, ocr: OcrRun)
    ensures var r := Cascade(plumber, pypdf, ocr);
      (r.Ok? ==> !IsBlank(r.value.text) && IsExtractionMethod(r.value.backend))
      && (r.Err? ==> r.error == NoTextMessage || r.error == TesseractHint)
  {
  }

  /** pdfplumber wins whenever it finishes with a page that is not blank. */
  lemma PdfplumberFirst(plumber: BackendRun, pypdf: BackendRun, ocr: OcrRun, k: nat)
    requires !plumber.raised && k < |plumber.pages| && !IsBlank(PagePiece(plumber.pages[k]))
    ensures Cascade(plumber, pypdf, ocr) == Ok(Extracted(Accumulate("", plumber.pages), "pdfplumber"))
  {
    AccumulateBlank("", plumber.pages);
  }

  /** The method is "none" only when OCR raised and PyPDF2 had raised after
      text was collected: a PyPDF2 run that finishes with non-blank text
      returns "pypdf2". */
  lemma MethodNoneOnlyAfterFailures(plumber: BackendRun, pypdf: BackendRun, ocr: OcrRun)
    requires var r := Cascade(plumber, pypdf, ocr); r.Ok? && r.value.backend == "none"
    ensures ocr.OcrRaised? && !Contains(Lower(ocr.errorText), "tesseract")
    ensures pypdf.raised
  {
  }

  /** When every page of every back-end is blank the cascade fails: with the
      hint when OCR raised about tesseract, otherwise with the plain message. */
  lemma AllBlankFails(plumber: BackendRun, pypdf: BackendRun, ocr: OcrRun)
    requires forall i :: 0 <= i < |plumber.pages| ==> IsBlank(PagePiece(plumber.pages[i]))
    requires forall i :: 0 <= i < |pypdf.pages| ==> IsBlank(PagePiece(pypdf.pages[i]))
    requires ocr.OcrPages? ==> forall i :: 0 <= i < |ocr.pageTexts| ==> IsBlank(ocr.pageTexts[i])
    ensures Cascade(plumber, pypdf, ocr).Err?
    ensures Cascade(plumber, pypdf, ocr).error == TesseractHint
      <==> ocr.OcrRaised? && Contains(Lower(ocr.errorText), "tesseract")
  {
    AccumulateBlank("", plumber.pages);
    AccumulateBlank(Accumulate("", plumber.pages), pypdf.pages);
    if ocr.OcrPages? { OcrAccumulateBlank("", ocr.pageTexts, 1); }
    assert NoTextMessage != TesseractHint by { assert |NoTextMessage| < |TesseractHint|; }
  }

  /** One back-end's page loop, as written: appends each truthy page and a
      newline to the running text. */
  method AppendPages(text0: string, pages: seq<Option<string>>) returns (text: string)
    ensures text == Accumulate(text0, pages)
  {
    text := text0;
    var i := 0;
    while i < |pages|
      invariant 0 <= i <= |pages|
      invariant Accumulate(text, pages[i..]) == Accumulate(text0, pages)
    {
      assert pages[i..][1..] == pages[i + 1..];
      assert Accumulate(text, pages[i..]) == Accumulate(text + PagePiece(pages[i]), pages[i + 1..]);
      var pageText := pages[i];
      if Truthy(pageText) {
        text := text + (pageText.value + "\n");
      } else {
        assert text + PagePiece(pageText) == text;
      }
      i := i + 1;
    }
  }

  /** `_extract_text_with_ocr`'s page loop: numbered blocks for the pages
      whose text is not blank. */
  method ExtractTextWithOcr(pageTexts: seq<string>) returns (text: string)
    ensures text == OcrAccumulate("", pageTexts, 1)
  {
    text := "";
    var i := 0;
    while i < |pageTexts|
      invariant 0 <= i <= |pageTexts|
      invariant OcrAccumulate(text, pageTexts[i..], i + 1) == OcrAccumulate("", pageTexts, 1)
    {
      assert pageTexts[i..][1..] == pageTexts[i + 1..];
      if !IsBlank(pageTexts[i]) {
        text := text + OcrBlock(i + 1, pageTexts[i]);
      }
      i := i + 1;
    }
  }

  /** `_extract_text_from_pdf`, step by step: the text variable is carried
      from one back-end to the next and replaced by the OCR text. */
  method ExtractTextFromPdf(plumber: BackendRun, pypdf: BackendRun, ocr: OcrRun)
    returns (r: Result<Extracted, string>)
    ensures r == Cascade(plumber, pypdf, ocr)
  {
    var text := "";
    text := AppendPages(text, plumber.pages);
    if !plumber.raised && !IsBlank(text) {
      return Ok(Extracted(text, "pdfplumber"));
    }
    text := AppendPages(text, pypdf.pages);
    if !pypdf.raised && !IsBlank(text) {
      return Ok(Extracted(text, "pypdf2"));
    }
    match ocr {
      case OcrPages(ps) =>
        text := ExtractTextWithOcr(ps);
        if !IsBlank(text) {
          return Ok(Extracted(text, "tesseract"));
        }
      case OcrRaised(msg) =>
        if Contains(Lower(msg), "tesseract") {
          return Err(TesseractHint);
        }
    }
    if IsBlank(text) {
      return Err(NoTextMessage);
    }
    return Ok(Extracted(text, "none"));
  }

  /** The `extracted_text` preview: the first 500 characters, and "..." when
      the text is longer. */
  function Preview(text: string): (p: string)
    ensures |text| <= 500 ==> p == text
    ensures |text| > 500 ==> |p| == 503 && p[..500] == text[..500] && p[500..] == "..."
  {
    if |text| > 500 then text[..500] + "..." else text
  }
}
