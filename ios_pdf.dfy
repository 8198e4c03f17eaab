/** The iOS side of the native PDF module: a shared object holding an
    optional PDFKit document, and `loadPDF`, which turns a URI into a URL
    and opens it. */
module IosPdf {
  import opened Outcomes

  /** A `PDFPage`: `string` is its text, possibly nil. */
  datatype PdfPage = PdfPage(text: Option<string>)

  /** A PDFKit `PDFDocument`, abstractly: its page count and
      `page(at:)`, which takes a zero-based index and may give nil. */
  datatype PdfKitDocument = PdfKitDocument(pageCount: int, pageAt: int -> Option<PdfPage>)

  /** `ExpoPDFDocument`. */
  class ExpoPdfDocument {
    var pdfDocument: Option<PdfKitDocument>

    constructor ()
      ensures pdfDocument == None
    {
      pdfDocument := None;
    }

    method SetPdfDocument(document: PdfKitDocument)
      modifies this
      ensures pdfDocument == Some(document)
    {
      pdfDocument := Some(document);
    }

    /** `loadPage`: a 1-based page number is checked against the page count
        and then read at the zero-based index `pageNumber - 1`. */
    method LoadPage(pageNumber: int) returns (r: Option<string>)
      ensures r.Some? ==>
        && pdfDocument.Some?
        && 1 <= pageNumber <= pdfDocument.value.pageCount
        && pdfDocument.value.pageAt(pageNumber - 1).Some?
        && r == pdfDocument.value.pageAt(pageNumber - 1).value.text
      ensures (pdfDocument.Some? && 1 <= pageNumber <= pdfDocument.value.pageCount
               && pdfDocument.value.pageAt(pageNumber - 1).Some?) ==>
        r == pdfDocument.value.pageAt(pageNumber - 1).value.text
    {
      if pdfDocument.None? {
        return None;
      }
      var document := pdfDocument.value;
      if !(pageNumber > 0 && pageNumber <= document.pageCount) {
        return None;
      }
      var page := document.pageAt(pageNumber - 1);
      if page.None? {
        return None;
      }
      r := page.value.text;
    }

    /** `getPageCount`: 0 when no document is held. */
    method GetPageCount() returns (n: int)
      ensures pdfDocument.None? ==> n == 0
      ensures pdfDocument.Some? ==> n == pdfDocument.value.pageCount
    {
      n := if pdfDocument.Some? then pdfDocument.value.pageCount else 0;
    }
  }

  /** A Foundation `URL`, abstractly. */
  datatype Url = Url(absoluteString: string)

  /** How `loadPDF` reads its argument. */
  datatype UriReading = AsUrlString | AsFilePath

  const FileScheme: string := "file://"

  predicate HasPrefix(s: string, prefix: string) {
    |prefix| <= |s| && s[..|prefix|] == prefix
  }

  /** The prefix rule: a URI that starts with `file://` is parsed as a URL
      string, anything else is taken as a file-system path. */
  function Reading(fileUri: string): (k: UriReading)
    ensures k == AsUrlString <==> HasPrefix(fileUri, FileScheme)
    ensures k == AsFilePath <==> !HasPrefix(fileUri, FileScheme)
  {
    if HasPrefix(fileUri, FileScheme) then AsUrlString else AsFilePath
  }

  /** Foundation and PDFKit as `loadPDF` uses them: `URL(string:)`, which
      may fail; `URL(fileURLWithPath:)`, which cannot; and
      `PDFDocument(url:)`, which may fail. */
  datatype Platform = Platform(
    urlFromString: string -> Option<Url>,
    fileUrl: string -> Url,
    openDocument: Url -> Option<PdfKitDocument>)

  function ResolveUrl(platform: Platform, fileUri: string): (r: Option<Url>)
    ensures Reading(fileUri) == AsFilePath ==> r == Some(platform.fileUrl(fileUri))
    ensures Reading(fileUri) == AsUrlString ==> r == platform.urlFromString(fileUri)
  {
    match Reading(fileUri)
    case AsUrlString => platform.urlFromString(fileUri)
    case AsFilePath => Some(platform.fileUrl(fileUri))
  }

  /** A path that does not start with `file://` always yields a URL, so it
      fails only if PDFKit cannot open the document. */
  lemma PathsAlwaysResolve(platform: Platform, fileUri: string)
    requires !HasPrefix(fileUri, FileScheme)
    ensures ResolveUrl(platform, fileUri).Some?
    ensures OpenDocument(platform, fileUri) == platform.openDocument(platform.fileUrl(fileUri))
  {
  }

  /** The document `loadPDF` ends up holding, or `None` when it returns nil. */
  function OpenDocument(platform: Platform, fileUri: string): (r: Option<PdfKitDocument>)
    ensures r.Some? <==> ResolveUrl(platform, fileUri).Some? && platform.openDocument(ResolveUrl(platform, fileUri).value).Some?
    ensures r.Some? ==> r == platform.openDocument(ResolveUrl(platform, fileUri).value)
  {
    match ResolveUrl(platform, fileUri)
    case None => None
    case Some(url) => platform.openDocument(url)
  }

  /** `loadPDF`: nil when no URL or no document results, otherwise a fresh
      object holding the document. */
  method LoadPdf(platform: Platform, fileUri: string) returns (r: ExpoPdfDocument?)
    ensures r == null <==> OpenDocument(platform, fileUri).None?
    ensures r != null ==> fresh(r) && r.pdfDocument == OpenDocument(platform, fileUri)
  {
    var url: Option<Url>;
    if HasPrefix(fileUri, FileScheme) {
      url := platform.urlFromString(fileUri);
    } else {
      url := Some(platform.fileUrl(fileUri));
    }
    if url.None? {
      return null;
    }
    var document := platform.openDocument(url.value);
    if document.None? {
      return null;
    }
    r := new ExpoPdfDocument();
    r.SetPdfDocument(document.value);
  }
}
