/** The upload checks of app/utils.py: the file validation run before a
    document is stored, the duplicate test over the stored MD5 digests, and
    the choice of reader by file extension for text and for metadata.
    Reading files, OCR and the metadata handlers themselves are outside the
    model; only which branch runs is modelled. */
module Uploads {
  import opened Maybe
  import opened Text

  /** The part of FastAPI's `UploadFile` the checks read. */
  datatype UploadFile = UploadFile(contentType: Option<string>, filename: Option<string>)

  /** An `HTTPException(status_code, detail)`. */
  datatype HttpError = HttpError(status: int, detail: string)

  const UnsupportedType: HttpError := HttpError(400, "Unsupported file type.")
  const NameRequired: HttpError := HttpError(400, "File name is required.")
  const NameTooLong: HttpError := HttpError(400, "File name too long.")
  const UnsupportedExtension: HttpError := HttpError(400, "Unsupported file extension for text extraction.")

  /** The longest accepted file name, in characters. */
  const MaxNameLength: nat := 128

  /** The accepted MIME types: PDF, Word (.docx), plain text, PNG and JPEG. */
  const AllowedTypes: seq<string> := [
    "application/pdf",
    "application/vnd.openxmlformats-officedocument.wordprocessingml.document",
    "text/plain",
    "image/png",
    "image/jpeg"]

  /** `validate_file(file)` (app/utils.py:18-25): `None` when the file passes,
      otherwise the error of the first failing check, in the order type,
      presence of a name, length of the name. */
  function ValidateFile(f: UploadFile): (r: Option<HttpError>)
    ensures r.None? <==>
      f.contentType.Some? && f.contentType.value in AllowedTypes &&
      f.filename.Some? && 0 < |f.filename.value| <= MaxNameLength
    ensures r.Some? ==> r.value.status == 400
    ensures !(f.contentType.Some? && f.contentType.value in AllowedTypes) ==> r == Some(UnsupportedType)
    ensures (f.contentType.Some? && f.contentType.value in AllowedTypes &&
             (f.filename.None? || |f.filename.value| == 0)) ==> r == Some(NameRequired)
    ensures (f.contentType.Some? && f.contentType.value in AllowedTypes &&
             f.filename.Some? && |f.filename.value| > MaxNameLength) ==> r == Some(NameTooLong)
  {
    if f.contentType.None? || f.contentType.value !in AllowedTypes then Some(UnsupportedType)
    else if f.filename.None? || |f.filename.value| == 0 then Some(NameRequired)
    else if |f.filename.value| > MaxNameLength then Some(NameTooLong)
    else None
  }

  /** A row of the `documents` table; only its digest matters here. */
  datatype StoredDocument = StoredDocument(filename: string, md5: string)

  /** `is_file_unique(md5, upload_dir)` (app/utils.py:32-36): true exactly when
      no stored document has this digest. The query's `.first()` stops at the
      first match. */
  method IsFileUnique(md5: string, stored: seq<StoredDocument>) returns (unique: bool)
    ensures unique <==> forall k :: 0 <= k < |stored| ==> stored[k].md5 != md5
  {
    var i := 0;
    while i < |stored| && stored[i].md5 != md5
      invariant 0 <= i <= |stored|
      invariant forall k :: 0 <= k < i ==> stored[k].md5 != md5
      decreases |stored| - i
    {
      i := i + 1;
    }
    unique := i == |stored|;
  }

  /** Python's `str.lower()` on ASCII letters; other characters are kept. */
  function LowerChar(c: char): char {
    if 'A' <= c <= 'Z' then (c as int + 32) as char else c
  }

  function Lower(s: string): (r: string)
    ensures |r| == |s| && forall k :: 0 <= k < |s| ==> r[k] == LowerChar(s[k])
  {
    seq(|s|, k requires 0 <= k < |s| => LowerChar(s[k]))
  }

  /** Index `dot` starts the extension of `p`: it is the last `.` of the path,
      no `/` follows it, and the last path component has a character other
      than `.` before it. */
  ghost predicate ExtensionAt(p: string, dot: int) {
    && 0 <= dot < |p|
    && p[dot] == '.'
    && (forall j :: dot < j < |p| ==> p[j] != '.' && p[j] != '/')
    && exists k :: 0 <= k < dot && p[k] != '.' && forall j :: k <= j < dot ==> p[j] != '/'
  }

  /** `os.path.splitext(p)` with POSIX separators: the extension starts at the
      last `.` after the last `/`, provided the file name has some character
      other than `.` before it (so `.bashrc` has no extension). */
  function SplitExt(p: string): (r: (string, string))
    ensures r.0 + r.1 == p
    ensures r.1 == [] || (r.1[0] == '.' && '.' !in r.1[1..] && '/' !in r.1)
    ensures forall dot :: ExtensionAt(p, dot) ==> r == (p[..dot], p[dot..])
    ensures (forall dot :: !ExtensionAt(p, dot)) ==> r == (p, "")
  {
    var sep: int := match LastIndexOf(p, '/') case Some(k) => k case None => -1;
    match LastIndexOf(p, '.')
    case None => (p, "")
    case Some(dot) =>
      if dot > sep && exists k :: sep < k < dot && p[k] != '.' then
        assert p[..dot] + p[dot..] == p;
        var k :| sep < k < dot && p[k] != '.';
        assert ExtensionAt(p, dot);
        (p[..dot], p[dot..])
      else (p, "")
  }

  /** `os.path.splitext(path)[1].lower()`, the key of both dispatches. */
  function Extension(p: string): string {
    Lower(SplitExt(p).1)
  }

  const ImageExtensions: seq<string> := [".png", ".jpg", ".jpeg"]

  /** The readers `extract_text_from_file` can use. */
  datatype TextReader = PdfPages | DocxParagraphs | PlainFile | ImageOcr

  /** What `extract_text_from_file` does with a path: read it with one of the
      readers, or raise an HTTP error. */
  datatype TextDispatch = Reader(reader: TextReader) | Rejected(error: HttpError)

  /** `extract_text_from_file(file_path)` (app/utils.py:44-60): the reader its
      lower-cased extension selects, or the 400 error for any other extension. */
  function TextReaderFor(p: string): (r: TextDispatch)
    ensures r == Reader(PdfPages) <==> Extension(p) == ".pdf"
    ensures r == Reader(DocxParagraphs) <==> Extension(p) == ".docx"
    ensures r == Reader(PlainFile) <==> Extension(p) == ".txt"
    ensures r == Reader(ImageOcr) <==> Extension(p) in {".png", ".jpg", ".jpeg"}
    ensures r.Rejected? <==> Extension(p) !in {".pdf", ".docx", ".txt", ".png", ".jpg", ".jpeg"}
    ensures r.Rejected? ==> r.error == UnsupportedExtension
  {
    var ext := Extension(p);
    if ext == ".pdf" then Reader(PdfPages)
    else if ext == ".docx" then Reader(DocxParagraphs)
    else if ext == ".txt" then Reader(PlainFile)
    else if ext in ImageExtensions then Reader(ImageOcr)
    else Rejected(UnsupportedExtension)
  }

  /** The handler predicates `is_pdf`, `is_docx`, `is_txt`, `is_image`
      (app/rag_file_types), each recomputing the lower-cased extension. */
  predicate IsPdf(p: string) { Extension(p) == ".pdf" }
  predicate IsDocx(p: string) { Extension(p) == ".docx" }
  predicate IsTxt(p: string) { Extension(p) == ".txt" }
  predicate IsImage(p: string) { Extension(p) in ImageExtensions }

  /** The metadata handlers `extract_metadata_from_file` can use, or none. */
  datatype MetadataSource = PdfInfo | DocxCoreProperties | TxtStat | ImageStat | NoMetadata

  /** `{"author": None, "title": None, "creation_date": None}`. */
  datatype Metadata = Metadata(author: Option<string>, title: Option<string>, creationDate: Option<string>)

  const EmptyMetadata: Metadata := Metadata(None, None, None)

  /** `extract_metadata_from_file(file_path)` (app/utils.py:63-73): the first
      handler whose predicate accepts the path. */
  function MetadataSourceFor(p: string): (m: MetadataSource)
    ensures m == PdfInfo <==> Extension(p) == ".pdf"
    ensures m == DocxCoreProperties <==> Extension(p) == ".docx"
    ensures m == TxtStat <==> Extension(p) == ".txt"
    ensures m == ImageStat <==> Extension(p) in {".png", ".jpg", ".jpeg"}
    ensures m == NoMetadata <==> Extension(p) !in {".pdf", ".docx", ".txt", ".png", ".jpg", ".jpeg"}
  {
    if IsPdf(p) then PdfInfo
    else if IsDocx(p) then DocxCoreProperties
    else if IsTxt(p) then TxtStat
    else if IsImage(p) then ImageStat
    else NoMetadata
  }

  /** The metadata of a path no handler accepts. */
  function FallbackMetadata(p: string): (m: Option<Metadata>)
    ensures m.Some? <==> MetadataSourceFor(p) == NoMetadata
    ensures m.Some? ==> m.value.author.None? && m.value.title.None? && m.value.creationDate.None?
  {
    if MetadataSourceFor(p) == NoMetadata then Some(EmptyMetadata) else None
  }

  /** Both dispatches look at nothing but the lower-cased extension: paths
      with the same one are treated alike. */
  lemma ExtensionDecides(p: string, q: string)
    requires Extension(p) == Extension(q)
    ensures TextReaderFor(p) == TextReaderFor(q)
    ensures MetadataSourceFor(p) == MetadataSourceFor(q)
  {
  }

  /** The two dispatches agree: text extraction rejects a path exactly when no
      metadata handler accepts it, and otherwise both pick the same format. */
  lemma DispatchesAgree(p: string)
    ensures TextReaderFor(p).Rejected? <==> MetadataSourceFor(p) == NoMetadata
    ensures TextReaderFor(p) == Reader(PdfPages) <==> MetadataSourceFor(p) == PdfInfo
    ensures TextReaderFor(p) == Reader(DocxParagraphs) <==> MetadataSourceFor(p) == DocxCoreProperties
    ensures TextReaderFor(p) == Reader(PlainFile) <==> MetadataSourceFor(p) == TxtStat
    ensures TextReaderFor(p) == Reader(ImageOcr) <==> MetadataSourceFor(p) == ImageStat
  {
  }

  /** A file name `stem.ext` outside any directory has extension `.ext`
      when the stem does not start with a dot. */
  lemma {:induction false} SplitExtOfFileName(stem: string, e: string)
    requires |stem| > 0 && stem[0] != '.'
    requires '/' !in stem && '/' !in e && '.' !in e
    ensures SplitExt(stem + "." + e) == (stem, "." + e)
  {
    var p := stem + "." + e;
    assert '/' !in p;
    var dot := |stem|;
    assert p[dot] == '.';
    assert forall k :: dot < k < |p| ==> p[k] == e[k - dot - 1];
    assert LastIndexOf(p, '.') == Some(dot);
    assert p[0] == stem[0];
    assert p[..dot] == stem;
    assert p[dot..] == "." + e;
  }

  /** A name whose only dot is its first character has no extension. */
  lemma {:induction false} HiddenFileHasNoExtension(e: string)
    requires '/' !in e && '.' !in e
    ensures SplitExt("." + e) == ("." + e, "")
  {
    var p := "." + e;
    assert p[0] == '.';
    assert forall k :: 0 < k < |p| ==> p[k] == e[k - 1];
    assert LastIndexOf(p, '.') == Some(0);
  }

  /** Dots in a directory name do not make an extension. */
  lemma {:induction false} DirectoryDotsIgnored(dir: string, name: string)
    requires '/' !in name && '.' !in name
    ensures SplitExt(dir + "/" + name) == (dir + "/" + name, "")
  {
    var p := dir + "/" + name;
    var sep := |dir|;
    assert p[sep] == '/';
    assert forall k :: sep < k < |p| ==> p[k] == name[k - sep - 1];
    assert LastIndexOf(p, '/') == Some(sep);
    match LastIndexOf(p, '.')
    case None =>
    case Some(dot) => assert dot < sep;
  }

  /** Upper-case extensions select the same reader: `REPORT.PDF` is a PDF. */
  lemma UpperCaseExtension()
    ensures TextReaderFor("REPORT.PDF") == Reader(PdfPages)
  {
    SplitExtOfFileName("REPORT", "PDF");
    assert "REPORT" + "." + "PDF" == "REPORT.PDF";
    assert Extension("REPORT.PDF") == ".pdf";
  }

  /** Mixed case works for every image extension: `scan.JPeG` is read by OCR. */
  lemma MixedCaseImageExtension()
    ensures TextReaderFor("scan.JPeG") == Reader(ImageOcr)
  {
    SplitExtOfFileName("scan", "JPeG");
    assert "scan" + "." + "JPeG" == "scan.JPeG";
    assert Extension("scan.JPeG") == ".jpeg";
  }

  /** Only the last extension counts: `notes.pdf.txt` is plain text. */
  lemma LastExtensionCounts()
    ensures TextReaderFor("notes.pdf.txt") == Reader(PlainFile)
  {
    SplitExtOfFileName("notes.pdf", "txt");
    assert "notes.pdf" + "." + "txt" == "notes.pdf.txt";
    assert Extension("notes.pdf.txt") == ".txt";
  }

  /** A leading dot is not an extension: `.pdf` is rejected. */
  lemma HiddenNameRejected()
    ensures TextReaderFor(".pdf").Rejected?
  {
    HiddenFileHasNoExtension("pdf");
    assert "." + "pdf" == ".pdf";
    assert Extension(".pdf") == "";
  }

  /** A dotted directory does not make an extension: `dir.pdf/README` is rejected. */
  lemma DottedDirectoryRejected()
    ensures TextReaderFor("dir.pdf/README").Rejected?
  {
    DirectoryDotsIgnored("dir.pdf", "README");
    assert "dir.pdf" + "/" + "README" == "dir.pdf/README";
    assert Extension("dir.pdf/README") == "";
  }
}
