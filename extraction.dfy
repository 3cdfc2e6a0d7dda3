/**
 * `extract_text_from_file`: the lower-cased extension of the path picks one
 * of three readers; any other extension is refused. The readers themselves
 * (PDF pages, DOCX paragraphs, UTF-8 text) parse the bytes stored at the path
 * and are parameters.
 */
module Extraction {
  import opened Wrappers
  import PyStr
  import PyPath

  datatype FileKind = Pdf | Docx | Txt

  const UnsupportedFileType := "Unsupported file type"

  type Bytes = seq<bv8>

  /** A reader maps the bytes stored at a path to their text, or fails with a message. */
  type Reader = Bytes -> Result<string, string>

  datatype Readers = Readers(pdf: Reader, docx: Reader, txt: Reader)

  /** The extension as the source compares it: `os.path.splitext(p)[1].lower()`. */
  function LowerExt(path: string): string
  {
    PyStr.Lower(PyPath.SplitExt(path).1)
  }

  /** The reader a kind selects. */
  function ReaderFor(readers: Readers, kind: FileKind): Reader
  {
    match kind
    case Pdf => readers.pdf
    case Docx => readers.docx
    case Txt => readers.txt
  }

  /** The kind the extension selects, or the "Unsupported file type" error. */
  function KindOf(path: string): (r: Result<FileKind, string>)
    ensures r == Success(Pdf) <==> LowerExt(path) == ".pdf"
    ensures r == Success(Docx) <==> LowerExt(path) == ".docx"
    ensures r == Success(Txt) <==> LowerExt(path) == ".txt"
    ensures r.Failure? <==> LowerExt(path) != ".pdf" && LowerExt(path) != ".docx" && LowerExt(path) != ".txt"
    ensures r.Failure? ==> r.error == UnsupportedFileType
  {
    var ext := LowerExt(path);
    if ext == ".pdf" then Success(Pdf)
    else if ext == ".docx" then Success(Docx)
    else if ext == ".txt" then Success(Txt)
    else Failure(UnsupportedFileType)
  }

  /** `extract_text_from_file(path)`, where `stored` is what the file at `path` holds. */
  function ExtractTextFromFile(path: string, stored: Bytes, readers: Readers): (r: Result<string, string>)
    ensures KindOf(path).Failure? ==> r == Failure(UnsupportedFileType)
    ensures KindOf(path) == Success(Pdf) ==> r == readers.pdf(stored)
    ensures KindOf(path) == Success(Docx) ==> r == readers.docx(stored)
    ensures KindOf(path) == Success(Txt) ==> r == readers.txt(stored)
  {
    match KindOf(path)
    case Success(Pdf) => readers.pdf(stored)
    case Success(Docx) => readers.docx(stored)
    case Success(Txt) => readers.txt(stored)
    case Failure(e) => Failure(e)
  }

  /** Lower-casing is per character, so only the letters' case is ignored. */
  lemma {:induction false} LowerExtCaseInsensitive(stem: string, ext: string, ext': string)
    requires PyPath.SplitExt(stem + ext).1 == ext && PyPath.SplitExt(stem + ext').1 == ext'
    requires |ext| == |ext'|
    requires forall i :: 0 <= i < |ext| ==> PyStr.LowerChar(ext[i]) == PyStr.LowerChar(ext'[i])
    ensures KindOf(stem + ext) == KindOf(stem + ext')
  {
    assert PyStr.Lower(ext) == PyStr.Lower(ext');
  }

  /** In a plain file name, the compared extension is the lower-cased text from the last dot on. */
  lemma LowerExtAtLastDot(name: string, i: int)
    requires 0 < i < |name| && name[i] == '.' && name[0] != '.'
    requires forall k :: i < k < |name| ==> name[k] != '.'
    requires forall k :: 0 <= k < |name| ==> name[k] != '/'
    ensures LowerExt(name) == PyStr.Lower(name[i..])
  {
    PyPath.SplitExtAtLastDot(name, i);
  }

  /** A plain name without a dot, or whose only dot leads, has no extension and is refused. */
  lemma NoExtensionRefused(name: string)
    requires forall k :: 0 < k < |name| ==> name[k] != '.'
    requires forall k :: 0 <= k < |name| ==> name[k] != '/'
    ensures KindOf(name) == Failure(UnsupportedFileType)
  {
    PyPath.NoExtension(name);
  }

  /** The extension's case does not matter. */
  lemma UpperCaseExtension()
    ensures KindOf("a.TXT") == Success(Txt)
  {
    LowerExtAtLastDot("a.TXT", 1);
    assert "a.TXT"[1..] == ".TXT";
    assert PyStr.Lower(".TXT") == ".txt";
  }

  /** Only the last dot starts the extension. */
  lemma LastDotCounts()
    ensures KindOf("a.b.pdf") == Success(Pdf)
  {
    LowerExtAtLastDot("a.b.pdf", 3);
    assert "a.b.pdf"[3..] == ".pdf";
    assert PyStr.Lower(".pdf") == ".pdf";
  }

  lemma DocxExtension()
    ensures KindOf("a.docx") == Success(Docx)
  {
    LowerExtAtLastDot("a.docx", 1);
    assert "a.docx"[1..] == ".docx";
    assert PyStr.Lower(".docx") == ".docx";
  }

  /** Any other extension is refused, as is a dot-file named like an extension. */
  lemma UnsupportedExamples()
    ensures KindOf("a.pptx") == Failure(UnsupportedFileType)
    ensures KindOf(".pdf") == Failure(UnsupportedFileType)
  {
    LowerExtAtLastDot("a.pptx", 1);
    assert "a.pptx"[1..] == ".pptx";
    assert PyStr.Lower(".pptx") == ".pptx";
    NoExtensionRefused(".pdf");
  }
}
