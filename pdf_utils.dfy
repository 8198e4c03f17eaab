/** The application's PDF helpers: choosing a file through the document
    picker, and assembling the text of a loaded PDF page by page. */
module PdfUtils {
  import opened Outcomes
  import opened JsText

  // ---------------------------------------------------------------------
  // pickPDFFile
  // ---------------------------------------------------------------------

  /** One asset the document picker hands back; `size` and `mimeType` may
      be absent. */
  datatype PickedAsset = PickedAsset(uri: string, name: string, size: Option<int>, mimeType: Option<string>)

  /** What `getDocumentAsync` resolves to. */
  datatype PickerOutcome = Canceled | Picked(assets: seq<PickedAsset>)

  datatype PdfPickResult = PdfPickResult(uri: string, name: string, size: int, mimeType: string)

  const DefaultMimeType: string := "application/pdf"
  const NoAsset: string := "TypeError: cannot read properties of undefined"

  /** The record built from the first asset: `size ?? 0` and
      `mimeType || 'application/pdf'` (an empty MIME type is falsy too). */
  function Describe(file: PickedAsset): (r: PdfPickResult)
    ensures r.uri == file.uri && r.name == file.name
    ensures r.size == (if file.size.Some? then file.size.value else 0)
    ensures r.mimeType == (if file.mimeType.Some? && file.mimeType.value != "" then file.mimeType.value else DefaultMimeType)
  {
    PdfPickResult(file.uri, file.name, file.size.GetOr(0),
      if file.mimeType.Some? && file.mimeType.value != "" then file.mimeType.value else DefaultMimeType)
  }

  /** `pickPDFFile`: `None` when the user cancels; a picker that throws, or
      an empty asset list (reading `assets[0].uri` throws), rejects. */
  function PickPdfFile(picker: Result<PickerOutcome, string>): (r: Result<Option<PdfPickResult>, string>)
    ensures picker.Failure? ==> r == Failure(picker.error)
    ensures picker == Success(Canceled) ==> r == Success(None)
    ensures picker.Success? && picker.value.Picked? ==>
      if picker.value.assets == [] then r.Failure?
      else r == Success(Some(Describe(picker.value.assets[0])))
  {
    match picker
    case Failure(e) => Failure(e)
    case Success(Canceled) => Success(None)
    case Success(Picked(assets)) =>
      if assets == [] then Failure(NoAsset) else Success(Some(Describe(assets[0])))
  }

  /** A picked file always has a non-empty MIME type, and the defaulting is
      idempotent: describing an already described file changes nothing. */
  lemma DescribeNormalizes(file: PickedAsset)
    ensures Describe(file).mimeType != ""
    ensures var d := Describe(file);
      Describe(PickedAsset(d.uri, d.name, Some(d.size), Some(d.mimeType))) == d
  {
  }

  // ---------------------------------------------------------------------
  // parsePDF
  // ---------------------------------------------------------------------

  /** The native document as the application sees it: its page count and
      the text `loadPage(i)` returns (`None` for null). */
  datatype PdfView = PdfView(pageCount: int, loadPage: int -> Option<string>)

  /** The native `loadPDF`: `None` when it resolves to null. */
  type PdfLoader = string -> Option<PdfView>

  datatype ParseResult = ParseResult(text: string, numPages: int)

  const LoadFailed: string := "Failed to load PDF file"

  /** `if (pageText)`: null and the empty string are skipped. */
  predicate Kept(t: Option<string>) {
    t.Some? && t.value != ""
  }

  /** The text accumulated over pages 1..n, before trimming. */
  function PagesText(view: PdfView, n: int): string
    decreases n
  {
    if n <= 0 then ""
    else if Kept(view.loadPage(n)) then PagesText(view, n - 1) + view.loadPage(n).value + "\n"
    else PagesText(view, n - 1)
  }

  /** `parsePDF`.  `requested` lists the page numbers passed to `loadPage`,
      in call order. */
  method ParsePdf(fileUri: string, load: PdfLoader) returns (r: Result<ParseResult, string>, requested: seq<int>)
    ensures load(fileUri).None? ==> r == Failure(LoadFailed) && requested == []
    ensures load(fileUri).Some? ==>
      var view := load(fileUri).value;
      && r == Success(ParseResult(Trim(PagesText(view, view.pageCount)), view.pageCount))
      && |requested| == (if view.pageCount < 0 then 0 else view.pageCount)
      && forall k :: 0 <= k < |requested| ==> requested[k] == k + 1
  {
    var pdf := load(fileUri);
    if pdf.None? {
      return Failure(LoadFailed), [];
    }
    var view := pdf.value;
    var pageCount := view.pageCount;
    var fullText := "";
    requested := [];
    var i := 1;
    while i <= pageCount
      invariant 1 <= i && (pageCount >= 0 ==> i <= pageCount + 1) && (pageCount < 0 ==> i == 1)
      invariant fullText == PagesText(view, i - 1)
      invariant |requested| == i - 1
      invariant forall k :: 0 <= k < |requested| ==> requested[k] == k + 1
    {
      var pageText := view.loadPage(i);
      requested := requested + [i];
      if pageText.Some? && pageText.value != "" {
        fullText := fullText + pageText.value + "\n";
      }
      i := i + 1;
    }
    return Success(ParseResult(Trim(fullText), pageCount)), requested;
  }

  // A reference description of the assembled text: the kept pages in order,
  // each followed by a newline.

  /** The pages among 1..n whose text is kept, in increasing order. */
  function KeptPages(view: PdfView, n: int): seq<int>
    decreases n
  {
    if n <= 0 then []
    else KeptPages(view, n - 1) + (if Kept(view.loadPage(n)) then [n] else [])
  }

  /** Each listed page's text followed by a newline. */
  function Join(view: PdfView, pages: seq<int>): string
  {
    if pages == [] then ""
    else
      var p := pages[|pages| - 1];
      Join(view, pages[..|pages| - 1]) + view.loadPage(p).GetOr("") + "\n"
  }

  /** Exactly the non-empty pages are kept, each once, in page order. */
  lemma {:induction false} KeptPagesExact(view: PdfView, n: int)
    ensures forall p :: p in KeptPages(view, n) <==> 1 <= p <= n && Kept(view.loadPage(p))
    ensures forall a, b :: 0 <= a < b < |KeptPages(view, n)| ==> KeptPages(view, n)[a] < KeptPages(view, n)[b]
    decreases n
  {
    if n > 0 {
      KeptPagesExact(view, n - 1);
      var prev := KeptPages(view, n - 1);
      assert forall a :: 0 <= a < |prev| ==> prev[a] in prev;
    }
  }

  lemma JoinSnoc(view: PdfView, pages: seq<int>, p: int)
    ensures Join(view, pages + [p]) == Join(view, pages) + view.loadPage(p).GetOr("") + "\n"
  {
    var ks := pages + [p];
    assert ks[..|ks| - 1] == pages;
  }

  /** The loop's text is the kept pages' texts joined with trailing
      newlines: skipped pages contribute nothing. */
  lemma {:induction false} PagesTextIsJoin(view: PdfView, n: int)
    ensures PagesText(view, n) == Join(view, KeptPages(view, n))
    decreases n
  {
    if n > 0 {
      PagesTextIsJoin(view, n - 1);
      if Kept(view.loadPage(n)) {
        assert KeptPages(view, n) == KeptPages(view, n - 1) + [n];
        assert view.loadPage(n).GetOr("") == view.loadPage(n).value;
        JoinSnoc(view, KeptPages(view, n - 1), n);
      } else {
        assert KeptPages(view, n) == KeptPages(view, n - 1);
      }
    }
  }

  /** A document with no page, or with no non-empty page, gives "". */
  lemma {:induction false} NoKeptPageNoText(view: PdfView, n: int)
    requires forall p :: 1 <= p <= n ==> !Kept(view.loadPage(p))
    ensures PagesText(view, n) == ""
    decreases n
  {
    if n > 0 {
      NoKeptPageNoText(view, n - 1);
    }
  }
}
