/** `extract_text_from_pdf`: the text layer of every page, with OCR text
    substituted on pages whose own text is nearly empty. Opening the file,
    rendering pages and running the OCR engine are inputs: each page comes
    with its text layer and the outcome the OCR engine would give. */
module PageMerge {
  import opened Text

  /** Pages whose stripped text layer is shorter than this are sent to OCR. */
  const OcrThreshold: nat := 20

  /** What OCR of a page gives: an exception, or the recognised text. */
  datatype OcrOutcome = OcrFailed | OcrText(text: string)

  /** One page: its text layer (`page.get_text() or ""`) and its OCR outcome,
      consulted only when the text layer is short. */
  datatype PageScan = PageScan(layer: string, ocr: OcrOutcome)

  /** The document: unreadable (opening or loading a page raises), or its
      pages in order. */
  datatype DocumentScan = Unreadable | Scanned(pages: seq<PageScan>)

  predicate NeedsOcr(p: PageScan) {
    |Strip(p.layer)| < OcrThreshold
  }

  /** `ocr_text and ocr_text.strip()`. */
  predicate UsableOcr(o: OcrOutcome) {
    o.OcrText? && !IsBlank(o.text)
  }

  /** The text kept for one page. */
  function PageText(p: PageScan): string {
    if NeedsOcr(p) && UsableOcr(p.ocr) then p.ocr.text else p.layer
  }

  function PageTexts(pages: seq<PageScan>): (r: seq<string>)
    ensures |r| == |pages|
    ensures forall i :: 0 <= i < |pages| ==> r[i] == PageText(pages[i])
  {
    seq(|pages|, i requires 0 <= i < |pages| => PageText(pages[i]))
  }

  /** The document's text: the page texts joined by newlines, stripped;
      an unreadable document gives the empty string. */
  function MergedText(doc: DocumentScan): string {
    match doc
    case Unreadable => ""
    case Scanned(pages) => Strip(Join("\n", PageTexts(pages)))
  }

  /** The page loop of `extract_text_from_pdf`. */
  method ExtractTextFromPdf(doc: DocumentScan) returns (text: string)
    ensures text == MergedText(doc)
  {
    if doc.Unreadable? {
      return "";
    }
    var pages := doc.pages;
    var pageTexts: seq<string> := [];
    var i := 0;
    while i < |pages|
      invariant 0 <= i <= |pages|
      invariant pageTexts == PageTexts(pages[..i])
    {
      var t := KeepPageText(pages[i]);
      PageTextsSnoc(pages, i);
      pageTexts := pageTexts + [t];
      i := i + 1;
    }
    assert pages[..i] == pages;
    text := Strip(Join("\n", pageTexts));
  }

  lemma PageTextsSnoc(pages: seq<PageScan>, i: nat)
    requires i < |pages|
    ensures PageTexts(pages[..i + 1]) == PageTexts(pages[..i]) + [PageText(pages[i])]
  {
    var a, b := PageTexts(pages[..i + 1]), PageTexts(pages[..i]) + [PageText(pages[i])];
    assert |a| == |b|;
    forall j | 0 <= j < |a| ensures a[j] == b[j] {
      var p := pages[j];
      assert pages[..i + 1][j] == p;
      assert a[j] == PageText(p);
      if j < i {
        assert pages[..i][j] == p;
        assert b[j] == PageTexts(pages[..i])[j];
      }
    }
  }

  /** One pass of the page loop: the text layer, unless it is short and OCR
      gives text that is not blank. */
  method KeepPageText(page: PageScan) returns (t: string)
    ensures t == PageText(page)
  {
    t := page.layer;
    if |Strip(t)| < OcrThreshold {
      match page.ocr
      case OcrFailed =>
      case OcrText(ocrText) =>
        if ocrText != "" && Strip(ocrText) != "" {
          t := ocrText;
        }
    }
  }

  /** The per-page rule: a page with 20 or more non-surrounding-space
      characters keeps its text layer; a failed or blank OCR keeps it too;
      otherwise the OCR text replaces it. OCR never turns a page blank. */
  lemma PageRule(p: PageScan)
    ensures |Strip(p.layer)| >= OcrThreshold ==> PageText(p) == p.layer
    ensures !UsableOcr(p.ocr) ==> PageText(p) == p.layer
    ensures NeedsOcr(p) && p.ocr.OcrText? && !IsBlank(p.ocr.text) ==> PageText(p) == p.ocr.text
    ensures IsBlank(PageText(p)) <==> IsBlank(p.layer) && !UsableOcr(p.ocr)
  {
    if IsBlank(p.layer) {
      assert Strip(p.layer) == [];
    }
  }

  /** The document's text is empty exactly when the document is unreadable
      or every page's kept text is blank. */
  lemma MergedEmpty(doc: DocumentScan)
    ensures MergedText(doc) == "" <==>
      doc.Unreadable? || forall i :: 0 <= i < |doc.pages| ==> IsBlank(PageText(doc.pages[i]))
  {
    if doc.Scanned? {
      var texts := PageTexts(doc.pages);
      JoinBlank("\n", texts);
      assert IsBlank(Join("\n", texts)) <==> forall i :: 0 <= i < |texts| ==> IsBlank(texts[i]);
    }
  }

  /** The text is already stripped. */
  lemma MergedIsStripped(doc: DocumentScan)
    ensures Strip(MergedText(doc)) == MergedText(doc)
  {
    if doc.Scanned? {
      StripIdempotent(Join("\n", PageTexts(doc.pages)));
    } else {
      assert IsBlank("");
    }
  }

  /** Page texts appear in page order: before stripping, page i's text starts
      right after the texts of pages 0..i-1 and one newline after each. */
  lemma PagesInOrder(pages: seq<PageScan>, i: nat)
    requires i < |pages|
    ensures OccursAt(Join("\n", PageTexts(pages)), PartsOffset("\n", PageTexts(pages)[..i]), PageText(pages[i]))
  {
    JoinPartAt("\n", PageTexts(pages), i);
  }
}
