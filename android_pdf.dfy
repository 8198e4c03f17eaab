/** The Android side of the native PDF module: a shared object holding an
    optional PDFBox document, and `loadPDF`, which opens a file URI. */
module AndroidPdf {
  import opened Outcomes

  /** A PDFBox `PDDocument`, abstractly: its page count, what a
      `PDFTextStripper` with the given start and end pages extracts (`None`
      when `getText` throws), and whether `close` throws. */
  datatype PdDocument = PdDocument(
    numberOfPages: int,
    stripText: (int, int) -> Option<string>,
    closeThrows: bool)

  /** `ExpoPDFDocument`. */
  class ExpoPdfDocument {
    var pdfDocument: Option<PdDocument>

    constructor ()
      ensures pdfDocument == None
    {
      pdfDocument := None;
    }

    method SetPdfDocument(document: PdDocument)
      modifies this
      ensures pdfDocument == Some(document)
    {
      pdfDocument := Some(document);
    }

    /** `loadPage`: the text of exactly page `pageNumber` (1-based), or
        `None` when no document is held, the number is out of range, or the
        extraction throws. */
    method LoadPage(pageNumber: int) returns (r: Option<string>)
      ensures pdfDocument.None? ==> r == None
      ensures pdfDocument.Some? && (pageNumber <= 0 || pageNumber > pdfDocument.value.numberOfPages) ==> r == None
      ensures pdfDocument.Some? && 0 < pageNumber <= pdfDocument.value.numberOfPages ==>
        r == pdfDocument.value.stripText(pageNumber, pageNumber)
    {
      if pdfDocument.None? {
        return None;
      }
      var document := pdfDocument.value;
      if pageNumber <= 0 || pageNumber > document.numberOfPages {
        return None;
      }
      var startPage, endPage := pageNumber, pageNumber;
      r := document.stripText(startPage, endPage);
    }

    /** `getPageCount`: 0 when no document is held. */
    method GetPageCount() returns (n: int)
      ensures pdfDocument.None? ==> n == 0
      ensures pdfDocument.Some? ==> n == pdfDocument.value.numberOfPages
    {
      n := if pdfDocument.Some? then pdfDocument.value.numberOfPages else 0;
    }

    /** `close`: closes the held document and clears the field.  If the
        document's own `close` throws, the exception propagates and the
        field is left as it was. */
    method Close() returns (r: Result<(), string>)
      modifies this
      ensures old(pdfDocument).Some? && old(pdfDocument).value.closeThrows ==>
        r.Failure? && pdfDocument == old(pdfDocument)
      ensures !(old(pdfDocument).Some? && old(pdfDocument).value.closeThrows) ==>
        r == Success(()) && pdfDocument == None
    {
      if pdfDocument.Some? && pdfDocument.value.closeThrows {
        return Failure("IOException");
      }
      pdfDocument := None;
      return Success(());
    }
  }

  /** After a successful `close` the object answers like an empty one. */
  method CloseScenario(document: PdDocument, pageNumber: int)
    requires !document.closeThrows
  {
    var pdf := new ExpoPdfDocument();
    pdf.SetPdfDocument(document);
    var closed := pdf.Close();
    assert closed == Success(());
    var count := pdf.GetPageCount();
    var text := pdf.LoadPage(pageNumber);
    assert count == 0 && text == None;
  }

  /** The file system and PDFBox as `loadPDF` uses them: the path of
      `URI(fileUri)` (`None` when the URI does not parse or has no path, so
      that `File(uri.path)` throws), `File.exists`, and `PDDocument.load`
      (`None` when it throws). */
  datatype FileSystem = FileSystem(
    uriPath: string -> Option<string>,
    fileExists: string -> bool,
    load: string -> Option<PdDocument>)

  /** The document `loadPDF` ends up holding, or `None` when it resolves
      to null. */
  function OpenDocument(fs: FileSystem, fileUri: string): (r: Option<PdDocument>)
    ensures r.Some? <==>
      fs.uriPath(fileUri).Some? && fs.fileExists(fs.uriPath(fileUri).value) && fs.load(fs.uriPath(fileUri).value).Some?
    ensures r.Some? ==> r == fs.load(fs.uriPath(fileUri).value)
  {
    match fs.uriPath(fileUri)
    case None => None
    case Some(path) => if !fs.fileExists(path) then None else fs.load(path)
  }

  /** `loadPDF`: null when the file is missing or anything throws,
      otherwise a fresh object holding the loaded document. */
  method LoadPdf(fs: FileSystem, fileUri: string) returns (r: ExpoPdfDocument?)
    ensures r == null <==> OpenDocument(fs, fileUri).None?
    ensures r != null ==> fresh(r) && r.pdfDocument == OpenDocument(fs, fileUri)
  {
    var path := fs.uriPath(fileUri);
    if path.None? {
      return null;
    }
    if !fs.fileExists(path.value) {
      return null;
    }
    var document := fs.load(path.value);
    if document.None? {
      return null;
    }
    r := new ExpoPdfDocument();
    r.SetPdfDocument(document.value);
  }
}
