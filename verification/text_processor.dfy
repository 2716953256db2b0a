/** `processors/text_processor.py`: plain text and Word documents.

    The file system and the `python-docx` parser are parameters, gathered
    in `Disk`. */
module TextProcessor {
  import opened Base
  import opened Strings

  /** `fileExists` is `os.path.exists`; `readText` reads a UTF-8 file (or
      gives the text of the exception); `docxParagraphs` gives the text of
      every paragraph of a `.docx` file in order. */
  datatype Disk = Disk(
    fileExists: string -> bool,
    readText: string -> Fallible<string>,
    docxParagraphs: string -> Fallible<seq<string>>)

  const NotFoundPrefix := "Text file not found: "
  const ProcessingErrorPrefix := "Error processing text file: "
  const LegacyDocText := "Legacy .doc format not supported. Please convert to .docx"
  /** `str` of the `IndexError` raised by `rsplit('.', 1)[1]` on a path
      without a dot. */
  const NoExtensionText := "list index out of range"

  /** The lower-cased text after the last `.`, or `None` where the source
      raises `IndexError`. */
  function Extension(path: string): (e: Option<string>)
    ensures e.None? <==> '.' !in path
    ensures e.Some? ==> '.' !in e.value && e.value == Lower(e.value)
  {
    match AfterLast(path, '.')
    case None => None
    case Some(ext) =>
      DotInLower(ext);
      LowerIdempotent(ext);
      Some(Lower(ext))
  }

  /** `stem + "." + ext` has the extension `ext`, lower-cased, whatever the
      stem, when `ext` has no dot. */
  lemma ExtensionOfName(stem: string, ext: string)
    requires '.' !in ext
    ensures Extension(stem + "." + ext) == Some(Lower(ext))
  {
    var s := stem + "." + ext;
    assert s[|s| - |ext|..] == ext;
    assert s[|s| - |ext| - 1] == '.';
    AfterLastIff(s, '.', ext);
  }

  /** `process_text(filepath)`. The extension is taken outside the `try`,
      so its `IndexError` is not prefixed; an extension other than `txt`,
      `doc` and `docx` gives the empty text. */
  function ProcessText(path: string, disk: Disk): (r: Fallible<string>)
    ensures !disk.fileExists(path) ==> r == Err(NotFoundPrefix + path)
    ensures disk.fileExists(path) && '.' !in path ==> r == Err(NoExtensionText)
    ensures disk.fileExists(path) && Extension(path) == Some("doc") ==> r == Err(ProcessingErrorPrefix + LegacyDocText)
    ensures disk.fileExists(path) && Extension(path) == Some("txt") ==>
      r == (match disk.readText(path)
            case Ok(t) => Ok(t)
            case Err(e) => Err(ProcessingErrorPrefix + e))
    ensures disk.fileExists(path) && Extension(path) == Some("docx") ==>
      r == (match disk.docxParagraphs(path)
            case Ok(ps) => Ok(Join(ps, "\n"))
            case Err(e) => Err(ProcessingErrorPrefix + e))
    ensures disk.fileExists(path) && Extension(path).Some? && Extension(path).value !in {"txt", "doc", "docx"} ==> r == Ok("")
  {
    if !disk.fileExists(path) then Err(NotFoundPrefix + path)
    else
      match Extension(path)
      case None => Err(NoExtensionText)
      case Some(ext) =>
        if ext == "txt" then
          match disk.readText(path)
          case Ok(t) => Ok(t)
          case Err(e) => Err(ProcessingErrorPrefix + e)
        else if ext == "doc" || ext == "docx" then
          if ext == "docx" then
            match disk.docxParagraphs(path)
            case Ok(ps) => Ok(Join(ps, "\n"))
            case Err(e) => Err(ProcessingErrorPrefix + e)
          else Err(ProcessingErrorPrefix + LegacyDocText)
        else Ok("")
  }

  /** A `.docx` whose paragraphs hold no line break comes back as exactly
      its paragraphs once the text is split at line breaks. */
  lemma DocxParagraphsRoundTrip(path: string, disk: Disk)
    requires disk.fileExists(path) && Extension(path) == Some("docx")
    requires disk.docxParagraphs(path).Ok? && |disk.docxParagraphs(path).value| >= 1
    requires forall i :: 0 <= i < |disk.docxParagraphs(path).value| ==> '\n' !in disk.docxParagraphs(path).value[i]
    ensures ProcessText(path, disk).Ok?
    ensures Split(ProcessText(path, disk).value, '\n') == disk.docxParagraphs(path).value
  {
    SplitJoin(disk.docxParagraphs(path).value, '\n');
  }

  /** A legacy `.doc` never yields text, whatever its name's case. */
  lemma LegacyDocAlwaysFails(stem: string, ext: string, disk: Disk)
    requires Lower(ext) == "doc"
    requires disk.fileExists(stem + "." + ext)
    ensures ProcessText(stem + "." + ext, disk) == Err(ProcessingErrorPrefix + LegacyDocText)
  {
    assert '.' !in ext by {
      DotInLower(ext);
      assert '.' !in Lower(ext);
    }
    ExtensionOfName(stem, ext);
  }
}
