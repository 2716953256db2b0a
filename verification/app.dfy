/** `app.py`: the Flask routes that accept an upload or a Google file,
    run it through extraction, analysis and generation, store the result
    as `brd_<id>.json` in the upload folder, and serve it back.

    The upload folder is a map from path to stored file. Everything the
    routes call but this model does not describe (`secure_filename`, the
    PDF extractor, file reads, the `.docx` parser, the language model, the
    BRD generator, the Google APIs) is a parameter, gathered in `Services`;
    the fresh UUIDs and the timestamp are gathered in `Fresh`. */
module App {
  import opened Base
  import opened Strings
  import opened Json
  import Analyzer
  import TextProcessor
  import GoogleDrive

  const AllowedExtensions: set<string> := {"pdf", "txt", "doc", "docx", "xls", "xlsx", "csv"}

  /** `allowed_file(filename)`: the lower-cased text after the last dot is
      an allowed extension. */
  function AllowedFile(filename: string): (ok: bool)
    ensures ok ==> '.' in filename
    ensures ok <==> TextProcessor.Extension(filename).Some? && TextProcessor.Extension(filename).value in AllowedExtensions
  {
    '.' in filename && TextProcessor.Extension(filename).value in AllowedExtensions
  }

  /** A name is allowed exactly when its last extension is, in any case. */
  lemma AllowedFileIff(stem: string, ext: string)
    requires '.' !in ext
    ensures AllowedFile(stem + "." + ext) <==> Lower(ext) in AllowedExtensions
  {
    TextProcessor.ExtensionOfName(stem, ext);
  }

  /** The check ignores case: lower-casing the whole name changes nothing. */
  lemma AllowedFileIgnoresCase(filename: string)
    ensures AllowedFile(Lower(filename)) == AllowedFile(filename)
  {
    AfterLastDotLower(filename);
    DotInLower(filename);
    if '.' in filename {
      LowerIdempotent(AfterLast(filename, '.').value);
    }
  }

  // ---------------------------------------------------------------------
  // Responses, the upload folder, the stored record
  // ---------------------------------------------------------------------

  /** A JSON reply with its status, or an exception that escapes the
      handler and becomes Flask's own 500 page. */
  datatype Response = Reply(status: int, body: Json) | Uncaught

  function ErrorReply(status: int, message: string): (r: Response) {
    Reply(status, JObj([("error", JStr(message))]))
  }

  /** A saved upload (under its original name), or a stored BRD record. */
  datatype Stored = UploadedFile(originalName: string) | BrdFile(data: Json)

  type Folder = map<string, Stored>

  /** `os.path.join(folder, name)` for the names used here. */
  function PathJoin(dir: string, name: string): (path: string) {
    if |name| > 0 && name[0] == '/' then name
    else if dir == "" || dir[|dir| - 1] == '/' then dir + name
    else dir + "/" + name
  }

  lemma PathJoinInjective(dir: string, a: string, b: string)
    requires |a| > 0 && a[0] != '/' && |b| > 0 && b[0] != '/'
    requires PathJoin(dir, a) == PathJoin(dir, b)
    ensures a == b
  {
    var prefix := if dir == "" || dir[|dir| - 1] == '/' then dir else dir + "/";
    assert PathJoin(dir, a) == prefix + a && PathJoin(dir, b) == prefix + b;
    assert a == (prefix + a)[|prefix|..];
    assert b == (prefix + b)[|prefix|..];
  }

  function BrdFileName(id: string): (name: string) {
    "brd_" + id + ".json"
  }

  lemma BrdFileNameInjective(a: string, b: string)
    requires BrdFileName(a) == BrdFileName(b)
    ensures a == b
  {
    assert |a| == |b|;
    assert a == BrdFileName(a)[4..4 + |a|];
    assert b == BrdFileName(b)[4..4 + |b|];
  }

  /** The characters of `str(uuid.uuid4())`. */
  predicate IsUuidChar(c: char) {
    '0' <= c <= '9' || 'a' <= c <= 'f' || c == '-'
  }

  predicate IsUuid(u: string) {
    |u| == 36 && forall i :: 0 <= i < |u| ==> IsUuidChar(u[i])
  }

  function UploadName(uploadId: string, name: string): (saved: string) {
    uploadId + "_" + name
  }

  /** A saved upload never takes the name of a BRD record: the record name
      starts with `br`, and `r` is not a UUID character. */
  lemma UploadNeverShadowsRecord(uploadId: string, name: string, brdId: string)
    requires IsUuid(uploadId)
    ensures UploadName(uploadId, name) != BrdFileName(brdId)
  {
    assert UploadName(uploadId, name)[1] == uploadId[1];
    assert BrdFileName(brdId)[1] == 'r';
  }

  /** Where the record came from. */
  datatype Origin = Uploaded(filename: string) | FromGoogle(source: string)

  /** The JSON object written to `brd_<id>.json`. */
  function RecordJson(id: string, origin: Origin, createdAt: string, brd: Json): (j: Json)
    ensures Get(j, "id") == Some(JStr(id))
    ensures Get(j, "brd") == Some(brd)
    ensures origin.Uploaded? ==> Get(j, "original_filename") == Some(JStr(origin.filename)) && Get(j, "original_source").None?
    ensures origin.FromGoogle? ==> Get(j, "original_source") == Some(JStr(origin.source)) && Get(j, "original_filename").None?
  {
    var originMember := match origin
      case Uploaded(f) => ("original_filename", JStr(f))
      case FromGoogle(s) => ("original_source", JStr(s));
    var ps := [("id", JStr(id)), originMember, ("created_at", JStr(createdAt)), ("brd", brd)];
    RecordMembersLookup(ps, id, originMember, createdAt, brd);
    JObj(ps)
  }

  /** The record's four members answer their own keys; no other key is
      present. */
  lemma RecordMembersLookup(
    ps: seq<(string, Json)>, id: string, originMember: (string, Json), createdAt: string, brd: Json)
    requires ps == [("id", JStr(id)), originMember, ("created_at", JStr(createdAt)), ("brd", brd)]
    requires originMember.0 == "original_filename" || originMember.0 == "original_source"
    ensures Lookup(ps, "id") == Some(JStr(id))
    ensures Lookup(ps, "brd") == Some(brd)
    ensures Lookup(ps, originMember.0) == Some(originMember.1)
    ensures forall key :: key !in {"id", originMember.0, "created_at", "brd"} ==> Lookup(ps, key).None?
  {
    forall key | key !in {"id", originMember.0, "created_at", "brd"}
      ensures Lookup(ps, key).None?
    {
      assert forall i :: 0 <= i < |ps| ==> ps[i].0 != key;
    }
    var ab := ps[..2];
    var abc := ps[..3];
    assert ab == [ps[0], ps[1]] && abc == ab + [ps[2]] && ps == abc + [ps[3]];
    LookupSnoc([ps[0]], ps[1], "id");
    LookupSnoc(ab, ps[2], "id");
    LookupSnoc(abc, ps[3], "id");
    LookupSnoc(ab, ps[2], originMember.0);
    LookupSnoc(abc, ps[3], originMember.0);
  }

  function SuccessBody(id: string, message: string): (j: Json)
    ensures HasTruthy(j, "success")
    ensures Get(j, "brd_id") == Some(JStr(id))
  {
    var ps := [("success", JBool(true)), ("brd_id", JStr(id)), ("message", JStr(message))];
    assert ps[..2] == [ps[0], ps[1]] && ps[..2][..1] == [ps[0]];
    JObj(ps)
  }

  const UploadSuccessText := "File processed successfully"
  const GoogleSuccessText := "Google file processed successfully"

  /** The collaborators the routes call. */
  datatype Services = Services(
    secureFilename: string -> string,
    processPdf: string -> Fallible<string>,
    readText: string -> Fallible<string>,
    docxParagraphs: string -> Fallible<seq<string>>,
    ai: string -> Fallible<Json>,
    generateBrd: Json -> Fallible<Json>,
    fetchDoc: (Json, Json) -> Result<seq<GoogleDrive.StructuralElement>, GoogleDrive.ApiFailure>,
    sheetTitles: (Json, Json) -> Result<seq<string>, GoogleDrive.ApiFailure>,
    sheetValues: (Json, Json) -> GoogleDrive.ValuesOf)

  /** The two `uuid.uuid4()` values and `datetime.now().isoformat()`. */
  datatype Fresh = Fresh(uploadId: string, brdId: string, createdAt: string)

  datatype Outcome = Outcome(response: Response, folder: Folder)

  function BrdPath(dir: string, id: string): (path: string) {
    PathJoin(dir, BrdFileName(id))
  }

  /** The shared tail of both processing routes, inside their `try`:
      analyse, generate, store the record, answer with its id; any failure
      is a 500 carrying the exception's text. */
  function Finish(
    dir: string, content: Fallible<string>, origin: Origin, message: string,
    svc: Services, gen: Fresh, folder: Folder): (r: Outcome)
    ensures r.response.Reply? && (r.response.status == 200 || r.response.status == 500)
    ensures r.response.status == 200 <==>
      content.Ok? && Analyzer.AnalyzeContent(content.value, svc.ai).Ok?
      && svc.generateBrd(Analyzer.AnalyzeContent(content.value, svc.ai).value).Ok?
    ensures r.response.status == 200 ==>
      r.response.body == SuccessBody(gen.brdId, message)
      && r.folder == folder[BrdPath(dir, gen.brdId) :=
           BrdFile(RecordJson(gen.brdId, origin, gen.createdAt,
                              svc.generateBrd(Analyzer.AnalyzeContent(content.value, svc.ai).value).value))]
    ensures r.response.status == 500 ==> r.folder == folder
    ensures content.Err? ==> r.response == ErrorReply(500, content.error)
    ensures content.Ok? && Analyzer.AnalyzeContent(content.value, svc.ai).Err? ==>
      r.response == ErrorReply(500, Analyzer.AnalyzeContent(content.value, svc.ai).error)
    ensures content.Ok? && Analyzer.AnalyzeContent(content.value, svc.ai).Ok?
            && svc.generateBrd(Analyzer.AnalyzeContent(content.value, svc.ai).value).Err? ==>
      r.response == ErrorReply(500, svc.generateBrd(Analyzer.AnalyzeContent(content.value, svc.ai).value).error)
  {
    match content
    case Err(e) => Outcome(ErrorReply(500, e), folder)
    case Ok(text) =>
      match Analyzer.AnalyzeContent(text, svc.ai)
      case Err(e) => Outcome(ErrorReply(500, e), folder)
      case Ok(analysis) =>
        match svc.generateBrd(analysis)
        case Err(e) => Outcome(ErrorReply(500, e), folder)
        case Ok(brd) =>
          var record := RecordJson(gen.brdId, origin, gen.createdAt, brd);
          Outcome(Reply(200, SuccessBody(gen.brdId, message)), folder[BrdPath(dir, gen.brdId) := BrdFile(record)])
  }

  // ---------------------------------------------------------------------
  // POST /api/upload
  // ---------------------------------------------------------------------

  const NoFilePartText := "No file part"
  const NoSelectedFileText := "No selected file"
  const InvalidFileTypeText := "Invalid file type"
  const UnsupportedFileTypeText := "Unsupported file type"

  /** The multipart part named `file`, by its client-side filename. */
  datatype FilePart = FilePart(filename: string)

  function UploadPath(dir: string, svc: Services, gen: Fresh, filename: string): (path: string) {
    PathJoin(dir, UploadName(gen.uploadId, svc.secureFilename(filename)))
  }

  /** The text processor's view of the folder after the upload is saved. */
  function TextDisk(svc: Services, saved: Folder): (disk: TextProcessor.Disk)
    ensures forall p :: disk.fileExists(p) <==> p in saved
  {
    TextProcessor.Disk((p: string) => p in saved, svc.readText, svc.docxParagraphs)
  }

  /** The dispatch on the secured name's extension, once the upload is
      saved at `path`. The extension is read outside the `try`, so a
      secured name without a dot escapes as an uncaught error; the other
      allowed extensions are refused only now, after saving. */
  function Dispatch(name: string, path: string, dir: string, svc: Services, gen: Fresh, saved: Folder): (r: Outcome)
    ensures TextProcessor.Extension(name).None? ==> r == Outcome(Uncaught, saved)
    ensures TextProcessor.Extension(name).Some? && TextProcessor.Extension(name).value !in {"pdf", "txt", "doc", "docx"} ==>
      r == Outcome(ErrorReply(400, UnsupportedFileTypeText), saved)
    ensures r.response.Reply? && r.response.status == 200 ==>
      && TextProcessor.Extension(name).Some?
      && TextProcessor.Extension(name).value in {"pdf", "txt", "doc", "docx"}
      && r.response.body == SuccessBody(gen.brdId, UploadSuccessText)
      && BrdPath(dir, gen.brdId) in r.folder
      && r.folder[BrdPath(dir, gen.brdId)].BrdFile?
      && Get(r.folder[BrdPath(dir, gen.brdId)].data, "id") == Some(JStr(gen.brdId))
      && Get(r.folder[BrdPath(dir, gen.brdId)].data, "brd").Some?
      && Get(r.folder[BrdPath(dir, gen.brdId)].data, "original_filename") == Some(JStr(name))
    ensures TextProcessor.Extension(name) == Some("pdf") && svc.processPdf(path).Err? ==>
      r == Outcome(ErrorReply(500, svc.processPdf(path).error), saved)
    ensures TextProcessor.Extension(name).Some? && TextProcessor.Extension(name).value in {"txt", "doc", "docx"}
            && TextProcessor.ProcessText(path, TextDisk(svc, saved)).Err? ==>
      r == Outcome(ErrorReply(500, TextProcessor.ProcessText(path, TextDisk(svc, saved)).error), saved)
    ensures TextProcessor.Extension(name) == Some("pdf") ==>
      r == Finish(dir, svc.processPdf(path), Uploaded(name), UploadSuccessText, svc, gen, saved)
    ensures TextProcessor.Extension(name).Some? && TextProcessor.Extension(name).value in {"txt", "doc", "docx"} ==>
      r == Finish(dir, TextProcessor.ProcessText(path, TextDisk(svc, saved)), Uploaded(name), UploadSuccessText, svc, gen, saved)
    ensures forall p :: p in saved && p != BrdPath(dir, gen.brdId) ==> p in r.folder && r.folder[p] == saved[p]
  {
    match TextProcessor.Extension(name)
    case None => Outcome(Uncaught, saved)
    case Some(ext) =>
      if ext == "pdf" then
        Finish(dir, svc.processPdf(path), Uploaded(name), UploadSuccessText, svc, gen, saved)
      else if ext in {"txt", "doc", "docx"} then
        Finish(dir, TextProcessor.ProcessText(path, TextDisk(svc, saved)), Uploaded(name), UploadSuccessText, svc, gen, saved)
      else Outcome(ErrorReply(400, UnsupportedFileTypeText), saved)
  }

  /** `upload_file()`. The three guards answer 400 before anything is
      saved; an allowed name is secured, saved, then dispatched. */
  function UploadFile(part: Option<FilePart>, dir: string, svc: Services, gen: Fresh, folder: Folder): (r: Outcome)
    ensures part.None? ==> r == Outcome(ErrorReply(400, NoFilePartText), folder)
    ensures part.Some? && part.value.filename == "" ==> r == Outcome(ErrorReply(400, NoSelectedFileText), folder)
    ensures part.Some? && part.value.filename != "" && !AllowedFile(part.value.filename) ==>
      r == Outcome(ErrorReply(400, InvalidFileTypeText), folder)
    ensures part.Some? && part.value.filename != "" && AllowedFile(part.value.filename) ==>
      r == Dispatch(svc.secureFilename(part.value.filename), UploadPath(dir, svc, gen, part.value.filename), dir, svc, gen,
                    folder[UploadPath(dir, svc, gen, part.value.filename) := UploadedFile(part.value.filename)])
    ensures part.Some? && part.value.filename != "" && AllowedFile(part.value.filename) ==>
      var upload := UploadPath(dir, svc, gen, part.value.filename);
      && upload in r.folder
      && (upload != BrdPath(dir, gen.brdId) ==> r.folder[upload] == UploadedFile(part.value.filename))
      && forall p :: p in folder && p != upload && p != BrdPath(dir, gen.brdId) ==> p in r.folder && r.folder[p] == folder[p]
    ensures r.response.Reply? && r.response.status == 200 ==>
      part.Some? && part.value.filename != "" && AllowedFile(part.value.filename)
  {
    match part
    case None => Outcome(ErrorReply(400, NoFilePartText), folder)
    case Some(f) =>
      if f.filename == "" then Outcome(ErrorReply(400, NoSelectedFileText), folder)
      else if !AllowedFile(f.filename) then Outcome(ErrorReply(400, InvalidFileTypeText), folder)
      else
        var path := UploadPath(dir, svc, gen, f.filename);
        var saved := folder[path := UploadedFile(f.filename)];
        var r := Dispatch(svc.secureFilename(f.filename), path, dir, svc, gen, saved);
        SavedFileKept(folder, path, UploadedFile(f.filename), BrdPath(dir, gen.brdId), r.folder);
        r
  }

  /** A folder that kept every entry of `folder[path := file]` except
      possibly `brd` holds `file` at `path` (unless `path` is `brd`) and
      every other entry of `folder`. */
  lemma SavedFileKept(folder: Folder, path: string, file: Stored, brd: string, after: Folder)
    requires forall p :: p in folder[path := file] && p != brd ==> p in after && after[p] == folder[path := file][p]
    ensures path != brd ==> path in after && after[path] == file
    ensures forall p :: p in folder && p != path && p != brd ==> p in after && after[p] == folder[p]
  {
    var saved := folder[path := file];
    forall p | p in folder && p != path && p != brd
      ensures p in after && after[p] == folder[p]
    {
      assert p in saved && saved[p] == folder[p];
    }
  }

  /** Dispatching a saved `.doc` ends in the text processor's refusal. */
  lemma DocDispatchFails(name: string, path: string, dir: string, svc: Services, gen: Fresh, saved: Folder)
    requires TextProcessor.Extension(name) == Some("doc") && TextProcessor.Extension(path) == Some("doc")
    requires path in saved
    ensures Dispatch(name, path, dir, svc, gen, saved).response ==
      ErrorReply(500, TextProcessor.ProcessingErrorPrefix + TextProcessor.LegacyDocText)
  {
    var disk := TextDisk(svc, saved);
    assert disk.fileExists(path);
    var content := TextProcessor.ProcessText(path, disk);
    assert content == Err(TextProcessor.ProcessingErrorPrefix + TextProcessor.LegacyDocText);
    assert Dispatch(name, path, dir, svc, gen, saved) == Finish(dir, content, Uploaded(name), UploadSuccessText, svc, gen, saved);
  }

  /** A legacy `.doc` upload is saved and then always refused with the text
      processor's message, whatever the collaborators do. */
  lemma LegacyDocUploadFails(
    filename: string, dir: string, svc: Services, gen: Fresh, folder: Folder,
    stem: string, ext: string)
    requires filename != "" && AllowedFile(filename)
    requires svc.secureFilename(filename) == stem + "." + ext && Lower(ext) == "doc"
    ensures UploadFile(Some(FilePart(filename)), dir, svc, gen, folder).response ==
      ErrorReply(500, TextProcessor.ProcessingErrorPrefix + TextProcessor.LegacyDocText)
  {
    assert '.' !in ext by {
      DotInLower(ext);
      assert '.' !in Lower(ext);
    }
    var name := stem + "." + ext;
    TextProcessor.ExtensionOfName(stem, ext);
    var path := UploadPath(dir, svc, gen, filename);
    assert UploadName(gen.uploadId, name) == UploadName(gen.uploadId, stem) + "." + ext;
    assert path == PathJoin(dir, UploadName(gen.uploadId, stem) + "." + ext);
    PathJoinExtension(dir, UploadName(gen.uploadId, stem), ext);
    var saved := folder[path := UploadedFile(filename)];
    assert UploadFile(Some(FilePart(filename)), dir, svc, gen, folder) == Dispatch(name, path, dir, svc, gen, saved);
    DocDispatchFails(name, path, dir, svc, gen, saved);
  }

  /** Joining onto a folder keeps the file's extension. */
  lemma PathJoinExtension(dir: string, stem: string, ext: string)
    requires '.' !in ext
    ensures TextProcessor.Extension(PathJoin(dir, stem + "." + ext)) == Some(Lower(ext))
  {
    var name := stem + "." + ext;
    if |name| > 0 && name[0] == '/' {
      TextProcessor.ExtensionOfName(stem, ext);
    } else if dir == "" || dir[|dir| - 1] == '/' {
      assert dir + name == (dir + stem) + "." + ext;
      TextProcessor.ExtensionOfName(dir + stem, ext);
    } else {
      assert dir + "/" + name == (dir + "/" + stem) + "." + ext;
      TextProcessor.ExtensionOfName(dir + "/" + stem, ext);
    }
  }

  // ---------------------------------------------------------------------
  // POST /api/google/process
  // ---------------------------------------------------------------------

  const MissingParametersText := "Missing required parameters"
  const UnsupportedGoogleTypeText := "Unsupported Google file type"

  /** Python truthiness of a decoded JSON value: empty containers are
      falsy, unlike in JavaScript. */
  predicate PyTruthy(j: Json) {
    match j
    case JNull => false
    case JBool(b) => b
    case JInt(n) => n != 0
    case JStr(s) => s != ""
    case JArr(xs) => |xs| > 0
    case JObj(ps) => |ps| > 0
  }

  /** `key in j` for a decoded JSON value, or `None` where Python raises
      `TypeError` (numbers and booleans). */
  function PyIn(key: string, j: Json): (r: Option<bool>)
    ensures j.JObj? ==> r == Some(HasKey(j.members, key))
  {
    match j
    case JObj(ps) => Some(HasKey(ps, key))
    case JArr(xs) => Some(JStr(key) in xs)
    case JStr(s) => Some(Contains(s, key))
    case _ => None
  }

  /** `not data or 'fileId' not in data or 'fileType' not in data or
      'token' not in data`, evaluated left to right: `Some(true)` answers
      400, `None` is a `TypeError` that escapes the handler. */
  function MissingParameters(data: Option<Json>): (r: Option<bool>)
    ensures data.Some? && data.value.JObj? && |data.value.members| > 0 ==>
      r == Some(!(HasKey(data.value.members, "fileId") && HasKey(data.value.members, "fileType")
                  && HasKey(data.value.members, "token")))
    ensures data.None? || !PyTruthy(data.value) ==> r == Some(true)
  {
    if data.None? || !PyTruthy(data.value) then Some(true)
    else
      var j := data.value;
      match PyIn("fileId", j)
      case None => None
      case Some(false) => Some(true)
      case Some(true) =>
        match PyIn("fileType", j)
        case None => None
        case Some(false) => Some(true)
        case Some(true) =>
          match PyIn("token", j)
          case None => None
          case Some(b) => Some(!b)
  }

  /** Python's `str` of a decoded JSON value, as used in the record's
      `original_source`. */
  function PyStr(j: Json): (text: string)
    decreases j, 1
  {
    match j
    case JStr(s) => s
    case _ => PyRepr(j)
  }

  /** Python's `repr` of a decoded JSON value: strings in single quotes,
      lists in brackets, dicts in braces, items separated by `, `. */
  function PyRepr(j: Json): (text: string)
    ensures j.JStr? ==> |text| == |j.s| + 2 && text[0] == '\'' == text[|text| - 1] && text[1..|text| - 1] == j.s
    ensures j.JArr? ==> |text| >= 2 && text[0] == '[' && text[|text| - 1] == ']'
    ensures j.JObj? ==> |text| >= 2 && text[0] == '{' && text[|text| - 1] == '}'
    decreases j, 0
  {
    match j
    case JNull => "None"
    case JBool(b) => if b then "True" else "False"
    case JInt(n) => IntToString(n)
    case JStr(s) => "'" + s + "'"
    case JArr(xs) => "[" + Join(seq(|xs|, i requires 0 <= i < |xs| => PyRepr(xs[i])), ", ") + "]"
    case JObj(ps) => "{" + Join(seq(|ps|, i requires 0 <= i < |ps| => "'" + ps[i].0 + "': " + PyRepr(ps[i].1)), ", ") + "}"
  }

  /** `google_<type>_<id>`. */
  function GoogleSource(fileType: string, fileId: Json): (source: string) {
    "google_" + fileType + "_" + PyStr(fileId)
  }

  /** The shared tail for a Google file of type `kind`: the record names
      `google_<kind>_<fileId>` as its source. */
  function GoogleFinish(
    kind: string, fileId: Json, content: Fallible<string>,
    dir: string, svc: Services, gen: Fresh, folder: Folder): (r: Outcome)
    ensures content.Err? ==> r.response == ErrorReply(500, content.error)
    ensures r.response.Reply? && r.response.status == 200 ==>
      && r.response.body == SuccessBody(gen.brdId, GoogleSuccessText)
      && BrdPath(dir, gen.brdId) in r.folder
      && r.folder[BrdPath(dir, gen.brdId)].BrdFile?
      && Get(r.folder[BrdPath(dir, gen.brdId)].data, "id") == Some(JStr(gen.brdId))
      && Get(r.folder[BrdPath(dir, gen.brdId)].data, "brd").Some?
      && Get(r.folder[BrdPath(dir, gen.brdId)].data, "original_source") == Some(JStr(GoogleSource(kind, fileId)))
    ensures forall p :: p in folder && p != BrdPath(dir, gen.brdId) ==> p in r.folder && r.folder[p] == folder[p]
  {
    Finish(dir, content, FromGoogle(GoogleSource(kind, fileId)), GoogleSuccessText, svc, gen, folder)
  }

  /** The route once `fileId`, `fileType` and `token` are present in the
      object `ps`: a document goes through `process_google_doc`, a
      spreadsheet through `process_google_sheet`, both then through the
      shared tail; any other type is refused. */
  function ProcessParameters(ps: seq<(string, Json)>, dir: string, svc: Services, gen: Fresh, folder: Folder): (r: Outcome)
    requires Lookup(ps, "fileId").Some? && Lookup(ps, "fileType").Some? && Lookup(ps, "token").Some?
    ensures Lookup(ps, "fileType").value !in {JStr("document"), JStr("spreadsheet")} ==>
      r == Outcome(ErrorReply(400, UnsupportedGoogleTypeText), folder)
    ensures Lookup(ps, "fileType").value == JStr("document") ==>
      var content := GoogleDrive.ProcessGoogleDoc(svc.fetchDoc(Lookup(ps, "fileId").value, Lookup(ps, "token").value));
      && r == GoogleFinish("document", Lookup(ps, "fileId").value, content, dir, svc, gen, folder)
      && (content.Err? ==> r.response == ErrorReply(500, content.error))
    ensures Lookup(ps, "fileType").value == JStr("spreadsheet") ==>
      var fileId := Lookup(ps, "fileId").value;
      var token := Lookup(ps, "token").value;
      var content := GoogleDrive.ProcessGoogleSheet(svc.sheetTitles(fileId, token), svc.sheetValues(fileId, token));
      && r == GoogleFinish("spreadsheet", fileId, content, dir, svc, gen, folder)
      && (content.Err? ==> r.response == ErrorReply(500, content.error))
    ensures r.response.Reply? && r.response.status == 200 ==>
      var fileType := Lookup(ps, "fileType").value;
      && (fileType == JStr("document") || fileType == JStr("spreadsheet"))
      && r.response.body == SuccessBody(gen.brdId, GoogleSuccessText)
      && BrdPath(dir, gen.brdId) in r.folder
      && r.folder[BrdPath(dir, gen.brdId)].BrdFile?
      && Get(r.folder[BrdPath(dir, gen.brdId)].data, "id") == Some(JStr(gen.brdId))
      && Get(r.folder[BrdPath(dir, gen.brdId)].data, "brd").Some?
      && Get(r.folder[BrdPath(dir, gen.brdId)].data, "original_source")
           == Some(JStr(GoogleSource(fileType.s, Lookup(ps, "fileId").value)))
    ensures forall p :: p in folder && p != BrdPath(dir, gen.brdId) ==> p in r.folder && r.folder[p] == folder[p]
  {
    var fileId := Lookup(ps, "fileId").value;
    var fileType := Lookup(ps, "fileType").value;
    var token := Lookup(ps, "token").value;
    if fileType == JStr("document") then
      GoogleFinish("document", fileId, GoogleDrive.ProcessGoogleDoc(svc.fetchDoc(fileId, token)), dir, svc, gen, folder)
    else if fileType == JStr("spreadsheet") then
      var content := GoogleDrive.ProcessGoogleSheet(svc.sheetTitles(fileId, token), svc.sheetValues(fileId, token));
      GoogleFinish("spreadsheet", fileId, content, dir, svc, gen, folder)
    else Outcome(ErrorReply(400, UnsupportedGoogleTypeText), folder)
  }

  /** `process_google_file()`. */
  function ProcessGoogleFile(data: Option<Json>, dir: string, svc: Services, gen: Fresh, folder: Folder): (r: Outcome)
    ensures MissingParameters(data) == Some(true) ==> r == Outcome(ErrorReply(400, MissingParametersText), folder)
    ensures MissingParameters(data).None? ==> r == Outcome(Uncaught, folder)
    ensures MissingParameters(data) == Some(false) && !data.value.JObj? ==> r == Outcome(Uncaught, folder)
    ensures MissingParameters(data) == Some(false) && data.value.JObj? ==>
      && Lookup(data.value.members, "fileId").Some?
      && Lookup(data.value.members, "fileType").Some?
      && Lookup(data.value.members, "token").Some?
      && r == ProcessParameters(data.value.members, dir, svc, gen, folder)
    ensures r.response.Reply? && r.response.status == 200 ==>
      && data.value.JObj?
      && var fileType := Lookup(data.value.members, "fileType").value;
         var fileId := Lookup(data.value.members, "fileId").value;
      && (fileType == JStr("document") || fileType == JStr("spreadsheet"))
      && r.response.body == SuccessBody(gen.brdId, GoogleSuccessText)
      && BrdPath(dir, gen.brdId) in r.folder
      && r.folder[BrdPath(dir, gen.brdId)].BrdFile?
      && Get(r.folder[BrdPath(dir, gen.brdId)].data, "id") == Some(JStr(gen.brdId))
      && Get(r.folder[BrdPath(dir, gen.brdId)].data, "brd").Some?
      && Get(r.folder[BrdPath(dir, gen.brdId)].data, "original_source") == Some(JStr(GoogleSource(fileType.s, fileId)))
    ensures forall p :: p in folder && p != BrdPath(dir, gen.brdId) ==> p in r.folder && r.folder[p] == folder[p]
  {
    match MissingParameters(data)
    case None => Outcome(Uncaught, folder)
    case Some(true) => Outcome(ErrorReply(400, MissingParametersText), folder)
    case Some(false) =>
      match data.value
      case JObj(ps) =>
        assert HasKey(ps, "fileId") && HasKey(ps, "fileType") && HasKey(ps, "token");
        ProcessParameters(ps, dir, svc, gen, folder)
      case _ =>
        // a list or a string that contains the three names: `data['fileId']` raises
        Outcome(Uncaught, folder)
  }

  // ---------------------------------------------------------------------
  // jsonify: the body Flask sends back
  // ---------------------------------------------------------------------

  /** `a` sorts strictly before `b` in Python's string order: code point
      by code point, a proper prefix first. */
  predicate KeyBefore(a: string, b: string)
    decreases |a|
  {
    |b| > 0 && (|a| == 0 || a[0] < b[0] || (a[0] == b[0] && KeyBefore(a[1..], b[1..])))
  }

  lemma {:induction false} KeyBeforeIrreflexive(a: string)
    ensures !KeyBefore(a, a)
    decreases |a|
  {
    if |a| > 0 {
      KeyBeforeIrreflexive(a[1..]);
    }
  }

  lemma {:induction false} KeyBeforeTotal(a: string, b: string)
    requires a != b
    ensures KeyBefore(a, b) || KeyBefore(b, a)
    decreases |a|
  {
    if |a| > 0 && |b| > 0 && a[0] == b[0] {
      assert a == [a[0]] + a[1..] && b == [b[0]] + b[1..];
      KeyBeforeTotal(a[1..], b[1..]);
    }
  }

  lemma {:induction false} KeyBeforeTransitive(a: string, b: string, c: string)
    requires KeyBefore(a, b) && KeyBefore(b, c)
    ensures KeyBefore(a, c)
    decreases |a|
  {
    if |a| > 0 && a[0] == b[0] && b[0] == c[0] {
      KeyBeforeTransitive(a[1..], b[1..], c[1..]);
    }
  }

  /** Member keys strictly ascending: sorted, and no key twice. */
  predicate KeysAscending(ps: seq<(string, Json)>) {
    forall i, j :: 0 <= i < j < |ps| ==> KeyBefore(ps[i].0, ps[j].0)
  }

  /** In a list of distinct keys the lookup finds exactly the listed
      member. */
  lemma AscendingLookup(ps: seq<(string, Json)>, k: string, v: Json)
    requires KeysAscending(ps)
    ensures Lookup(ps, k) == Some(v) <==> (k, v) in ps
  {
    if (k, v) in ps {
      var i :| 0 <= i < |ps| && ps[i] == (k, v);
      var w := Lookup(ps, k).value;
      var j :| 0 <= j < |ps| && ps[j] == (k, w);
      if i != j {
        if i < j { KeyBeforeIrreflexive(k); } else { KeyBeforeIrreflexive(k); }
      }
    }
  }

  /** One step of building a dict in key order: `p` replaces a member with
      its key or goes in its place. */
  function InsertMember(p: (string, Json), ps: seq<(string, Json)>): (r: seq<(string, Json)>)
    requires KeysAscending(ps)
    ensures KeysAscending(r)
    ensures forall x :: x in r <==> x == p || (x in ps && x.0 != p.0)
    decreases |ps|
  {
    if |ps| == 0 then [p]
    else if p.0 == ps[0].0 then
      KeyBeforeIrreflexive(p.0);
      assert forall x :: x in ps[1..] ==> KeyBefore(p.0, x.0);
      assert ps == [ps[0]] + ps[1..];
      [p] + ps[1..]
    else if KeyBefore(p.0, ps[0].0) then
      forall j | 0 < j < |ps| ensures KeyBefore(p.0, ps[j].0) {
        KeyBeforeTransitive(p.0, ps[0].0, ps[j].0);
      }
      assert forall x :: x in ps ==> KeyBefore(p.0, x.0);
      KeyBeforeIrreflexive(p.0);
      [p] + ps
    else
      KeyBeforeTotal(p.0, ps[0].0);
      var rest := InsertMember(p, ps[1..]);
      assert forall x :: x in ps[1..] ==> KeyBefore(ps[0].0, x.0);
      assert forall x :: x in rest ==> KeyBefore(ps[0].0, x.0);
      [ps[0]] + rest
  }

  lemma InsertMemberLookup(p: (string, Json), ps: seq<(string, Json)>, k: string)
    requires KeysAscending(ps)
    ensures Lookup(InsertMember(p, ps), k) == if k == p.0 then Some(p.1) else Lookup(ps, k)
  {
    var r := InsertMember(p, ps);
    if k == p.0 {
      AscendingLookup(r, k, p.1);
    } else if Lookup(ps, k).Some? {
      AscendingLookup(ps, k, Lookup(ps, k).value);
      AscendingLookup(r, k, Lookup(ps, k).value);
    } else if Lookup(r, k).Some? {
      AscendingLookup(r, k, Lookup(r, k).value);
      AscendingLookup(ps, k, Lookup(r, k).value);
    }
  }

  /** The members of a decoded object, as `json.dumps(..., sort_keys=True)`
      writes them: one per key, the last value given for it, in ascending
      key order. */
  function SortMembers(ps: seq<(string, Json)>): (r: seq<(string, Json)>)
    ensures KeysAscending(r)
    decreases |ps|
  {
    if |ps| == 0 then [] else InsertMember(ps[|ps| - 1], SortMembers(ps[..|ps| - 1]))
  }

  /** Sorting changes the order only: every key looks up the same value. */
  lemma {:induction false} SortMembersLookup(ps: seq<(string, Json)>, k: string)
    ensures Lookup(SortMembers(ps), k) == Lookup(ps, k)
    decreases |ps|
  {
    if |ps| > 0 {
      SortMembersLookup(ps[..|ps| - 1], k);
      InsertMemberLookup(ps[|ps| - 1], SortMembers(ps[..|ps| - 1]), k);
    }
  }

  /** Members already in ascending key order are left as they are. */
  lemma {:induction false} SortMembersOfAscending(ps: seq<(string, Json)>)
    requires KeysAscending(ps)
    ensures SortMembers(ps) == ps
    decreases |ps|
  {
    if |ps| > 0 {
      var init, last := ps[..|ps| - 1], ps[|ps| - 1];
      assert init + [last] == ps;
      InsertLast(last, init);
      SortMembersOfAscending(init);
      assert SortMembers(ps) == InsertMember(last, SortMembers(init));
    }
  }

  lemma {:induction false} InsertLast(p: (string, Json), ps: seq<(string, Json)>)
    requires KeysAscending(ps + [p])
    ensures KeysAscending(ps)
    ensures InsertMember(p, ps) == ps + [p]
    decreases |ps|
  {
    assert forall i :: 0 <= i < |ps| ==> (ps + [p])[i] == ps[i];
    if |ps| > 0 {
      assert (ps + [p])[0] == ps[0] && (ps + [p])[|ps|] == p;
      KeyBeforeIrreflexive(p.0);
      assert ps[0].0 != p.0;
      assert ps[1..] + [p] == (ps + [p])[1..];
      InsertLast(p, ps[1..]);
      if KeyBefore(p.0, ps[0].0) {
        KeyBeforeTransitive(p.0, ps[0].0, p.0);
      }
      assert [ps[0]] + (ps[1..] + [p]) == ps + [p];
    }
  }

  /** `jsonify` of the record `json.load` read back: every object, at any
      depth, with its keys sorted (Flask's default JSON provider sorts
      keys). */
  function Served(j: Json): (s: Json)
    ensures j.JObj? <==> s.JObj?
    ensures j.JArr? <==> s.JArr?
    ensures !j.JObj? && !j.JArr? ==> s == j
    ensures s.JObj? ==> KeysAscending(s.members)
    decreases j, 1
  {
    match j
    case JArr(xs) => JArr(ServedItems(xs))
    case JObj(ps) => JObj(SortMembers(ServedMembers(ps)))
    case _ => j
  }

  function ServedItems(xs: seq<Json>): (rs: seq<Json>)
    ensures |rs| == |xs|
    ensures forall i :: 0 <= i < |xs| ==> rs[i] == Served(xs[i])
    decreases xs, 0
  {
    if |xs| == 0 then [] else [Served(xs[0])] + ServedItems(xs[1..])
  }

  function ServedMembers(ps: seq<(string, Json)>): (rs: seq<(string, Json)>)
    ensures |rs| == |ps|
    decreases ps, 0
  {
    if |ps| == 0 then [] else [ServedMember(ps[0])] + ServedMembers(ps[1..])
  }

  function ServedMember(p: (string, Json)): (q: (string, Json))
    ensures q.0 == p.0
    decreases p, 2
  {
    (p.0, Served(p.1))
  }

  function ServedValue(v: Option<Json>): (r: Option<Json>)
    ensures r.Some? <==> v.Some?
  {
    if v.Some? then Some(Served(v.value)) else None
  }

  lemma {:induction false} ServedMembersLookup(ps: seq<(string, Json)>, k: string)
    ensures Lookup(ServedMembers(ps), k) == ServedValue(Lookup(ps, k))
    decreases |ps|
  {
    if |ps| > 0 {
      var n := |ps| - 1;
      ServedMembersSnoc(ps[..n], ps[n]);
      assert ps[..n] + [ps[n]] == ps;
      ServedMembersLookup(ps[..n], k);
      var rs := ServedMembers(ps);
      assert rs[..n] == ServedMembers(ps[..n]);
    }
  }

  lemma {:induction false} ServedMembersSnoc(ps: seq<(string, Json)>, p: (string, Json))
    ensures ServedMembers(ps + [p]) == ServedMembers(ps) + [ServedMember(p)]
    decreases |ps|
  {
    if |ps| == 0 {
      assert ps + [p] == [p];
    } else {
      assert (ps + [p])[1..] == ps[1..] + [p];
      ServedMembersSnoc(ps[1..], p);
    }
  }

  /** The served body answers every property read as the stored record
      does, up to the same sorting of the value read. */
  lemma ServedGet(j: Json, k: string)
    ensures Get(Served(j), k) == ServedValue(Get(j, k))
  {
    if j.JObj? {
      SortMembersLookup(ServedMembers(j.members), k);
      ServedMembersLookup(j.members, k);
    }
  }

  /** Sorting never changes JavaScript truthiness. */
  lemma ServedTruthy(j: Json)
    ensures Truthy(Served(j)) == Truthy(j)
    ensures Served(j) == JNull <==> j == JNull
  {
  }

  // ---------------------------------------------------------------------
  // GET /api/brd/<brd_id>
  // ---------------------------------------------------------------------

  const BrdNotFoundText := "BRD not found"

  /** `get_brd(brd_id)`: the stored record, or 404. Reading an uploaded
      file as JSON is not modelled and counts as an uncaught error. */
  function GetBrd(id: string, dir: string, folder: Folder): (r: Response)
    ensures BrdPath(dir, id) !in folder <==> r == ErrorReply(404, BrdNotFoundText)
    ensures r.Reply? && r.status == 200 <==> BrdPath(dir, id) in folder && folder[BrdPath(dir, id)].BrdFile?
    ensures r.Reply? && r.status == 200 ==> r.body == Served(folder[BrdPath(dir, id)].data)
  {
    var path := BrdPath(dir, id);
    if path !in folder then ErrorReply(404, BrdNotFoundText)
    else
      match folder[path]
      case BrdFile(data) => Reply(200, Served(data))
      case UploadedFile(_) => Uncaught
  }

  /** A stored record read back: the served body answers every key as the
      record does, with the value's keys sorted. */
  lemma GetBrdReadsBack(id: string, dir: string, folder: Folder, k: string)
    requires BrdPath(dir, id) in folder && folder[BrdPath(dir, id)].BrdFile?
    ensures GetBrd(id, dir, folder) == Reply(200, Served(folder[BrdPath(dir, id)].data))
    ensures Get(GetBrd(id, dir, folder).body, k) == ServedValue(Get(folder[BrdPath(dir, id)].data, k))
  {
    ServedGet(folder[BrdPath(dir, id)].data, k);
  }

  /** What a successful upload stores is what `GET /api/brd/<id>` serves
      under the id it returned. */
  lemma UploadThenGet(part: Option<FilePart>, dir: string, svc: Services, gen: Fresh, folder: Folder)
    requires UploadFile(part, dir, svc, gen, folder).response.Reply?
    requires UploadFile(part, dir, svc, gen, folder).response.status == 200
    ensures
      var r := UploadFile(part, dir, svc, gen, folder);
      var served := GetBrd(gen.brdId, dir, r.folder);
      && BrdPath(dir, gen.brdId) in r.folder && r.folder[BrdPath(dir, gen.brdId)].BrdFile?
      && served == Reply(200, Served(r.folder[BrdPath(dir, gen.brdId)].data))
      && Get(served.body, "id") == Some(JStr(gen.brdId))
      && Get(served.body, "original_filename") == Some(JStr(svc.secureFilename(part.value.filename)))
  {
    var r := UploadFile(part, dir, svc, gen, folder);
    GetBrdReadsBack(gen.brdId, dir, r.folder, "id");
    GetBrdReadsBack(gen.brdId, dir, r.folder, "original_filename");
  }

  /** Likewise for a Google file: the record is served back with the
      `google_<type>_<id>` source. */
  lemma GoogleThenGet(data: Option<Json>, dir: string, svc: Services, gen: Fresh, folder: Folder)
    requires ProcessGoogleFile(data, dir, svc, gen, folder).response.Reply?
    requires ProcessGoogleFile(data, dir, svc, gen, folder).response.status == 200
    ensures
      var r := ProcessGoogleFile(data, dir, svc, gen, folder);
      var served := GetBrd(gen.brdId, dir, r.folder);
      && served.Reply? && served.status == 200
      && Get(served.body, "id") == Some(JStr(gen.brdId))
      && Get(served.body, "original_source") == Some(JStr(GoogleSource(
           Lookup(data.value.members, "fileType").value.s, Lookup(data.value.members, "fileId").value)))
  {
    var r := ProcessGoogleFile(data, dir, svc, gen, folder);
    GetBrdReadsBack(gen.brdId, dir, r.folder, "id");
    GetBrdReadsBack(gen.brdId, dir, r.folder, "original_source");
  }
}
