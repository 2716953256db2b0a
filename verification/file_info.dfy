/** `GoogleDriveConnector.js`: the Google Docs/Sheets URL extractor
    `extractFileInfo` and the connect handler that stores the typed URL
    before the OAuth redirect.

    The WHATWG URL parser behind `new URL(url)` is not modelled: it is a
    parameter mapping the raw text to its `pathname`, or to `None` where the
    constructor throws. */
module FileInfo {
  import opened Base
  import opened Strings
  import opened Json

  datatype FileType = Document | Spreadsheet

  /** The `fileType` string sent to the backend. */
  function TypeName(t: FileType): string {
    match t
    case Document => "document"
    case Spreadsheet => "spreadsheet"
  }

  datatype FileRef = FileRef(fileId: string, fileType: FileType)

  const DocumentMarker := "docs.google.com/document"
  const SheetMarker := "docs.google.com/spreadsheets"

  /** `new URL(url).pathname`, or `None` where the constructor throws. */
  type PathnameOf = string -> Option<string>

  /** The type test on the raw text (not on the host): documents first. */
  function TypeOf(url: string): Option<FileType> {
    if Contains(url, DocumentMarker) then Some(Document)
    else if Contains(url, SheetMarker) then Some(Spreadsheet)
    else None
  }

  /** `parts[i]` is the first path segment equal to `"d"`. */
  predicate FirstD(parts: seq<string>, i: int) {
    0 <= i < |parts| && parts[i] == "d" && "d" !in parts[..i]
  }

  /** `extractFileInfo(url)` as written: the segment after the first `"d"`;
      with no `"d"` segment, `indexOf` gives -1 and the first segment is
      returned. */
  function ExtractFileInfo(url: string, pathname: PathnameOf): (r: Option<FileRef>)
    ensures r.Some? ==> pathname(url).Some? && TypeOf(url) == Some(r.value.fileType)
    ensures r.Some? ==> r.value.fileId in Split(pathname(url).value, '/') && '/' !in r.value.fileId
  {
    match pathname(url)
    case None => None
    case Some(path) =>
      var parts := Split(path, '/');
      match TypeOf(url)
      case None => None
      case Some(t) =>
        var idx := IndexOf(parts, "d") + 1;
        if idx < |parts| then Some(FileRef(parts[idx], t)) else None
  }

  lemma FirstDIsIndexOf(parts: seq<string>, i: int)
    requires FirstD(parts, i)
    ensures IndexOf(parts, "d") == i
  {
  }

  /** Every outcome of the extractor, by the shape of the pathname. */
  lemma ExtractFileInfoCases(url: string, pathname: PathnameOf)
    ensures pathname(url).None? ==> ExtractFileInfo(url, pathname).None?
    ensures TypeOf(url).None? ==> ExtractFileInfo(url, pathname).None?
    ensures pathname(url).Some? && TypeOf(url).Some? ==>
      var parts := Split(pathname(url).value, '/');
      var t := TypeOf(url).value;
      && (forall i :: FirstD(parts, i) && i + 1 < |parts| ==>
            ExtractFileInfo(url, pathname) == Some(FileRef(parts[i + 1], t)))
      && (forall i :: FirstD(parts, i) && i + 1 == |parts| ==>
            ExtractFileInfo(url, pathname).None?)
      && ("d" !in parts ==> ExtractFileInfo(url, pathname) == Some(FileRef(parts[0], t)))
  {
    if pathname(url).Some? && TypeOf(url).Some? {
      var parts := Split(pathname(url).value, '/');
      forall i | FirstD(parts, i) {
        FirstDIsIndexOf(parts, i);
      }
    }
  }

  /** The extractor answers `null` exactly for an unparsable URL, a URL of
      neither kind, or a path whose first `"d"` is its last segment. */
  lemma ExtractFileInfoNullIff(url: string, pathname: PathnameOf)
    ensures ExtractFileInfo(url, pathname).None? <==>
      || pathname(url).None?
      || TypeOf(url).None?
      || FirstD(Split(pathname(url).value, '/'), |Split(pathname(url).value, '/')| - 1)
  {
    if pathname(url).Some? && TypeOf(url).Some? {
      var parts := Split(pathname(url).value, '/');
      if FirstD(parts, |parts| - 1) {
        FirstDIsIndexOf(parts, |parts| - 1);
      }
      var j := IndexOf(parts, "d");
      if j == |parts| - 1 {
        assert FirstD(parts, j);
      }
    }
  }

  /** `a` then `/` then a path splits into `a` and that path's pieces. */
  lemma ConsSegment(a: string, rest: string, pieces: seq<string>)
    requires '/' !in a && Split(rest, '/') == pieces
    ensures Split(a + "/" + rest, '/') == [a] + pieces
  {
    SplitAfterSeparator(a, rest, '/');
  }

  lemma DocumentPathShape(path: string, id: string)
    requires path == "/document/d/" + id + "/edit"
    ensures path == "" + "/" + ("document" + "/" + ("d" + "/" + (id + "/" + "edit")))
  {
  }

  lemma NestedPathSplit(a: string, b: string, c: string, d: string, e: string)
    requires '/' !in a && '/' !in b && '/' !in c && '/' !in d && '/' !in e
    ensures Split(a + "/" + (b + "/" + (c + "/" + (d + "/" + e))), '/') == [a, b, c, d, e]
  {
    SplitWithoutSeparator(e, '/');
    ConsSegment(d, e, [e]);
    ConsSegment(c, d + "/" + e, [d, e]);
    ConsSegment(b, c + "/" + (d + "/" + e), [c, d, e]);
    ConsSegment(a, b + "/" + (c + "/" + (d + "/" + e)), [b, c, d, e]);
  }

  lemma DocumentPathSplit(path: string, id: string)
    requires '/' !in id
    requires path == "/document/d/" + id + "/edit"
    ensures Split(path, '/') == ["", "document", "d", id, "edit"]
  {
    DocumentPathShape(path, id);
    NestedPathSplit("", "document", "d", id, "edit");
  }

  lemma DocumentUrlIsDocument(url: string, rest: string)
    requires url == "https://" + DocumentMarker + rest
    ensures TypeOf(url) == Some(Document)
  {
    ContainsInfix("https://", DocumentMarker, rest);
  }

  /** URLs of the shape in the source's own comment,
      `https://docs.google.com/document/d/<id>/edit`, yield their id. */
  lemma ExtractFileInfoExample(url: string, id: string, pathname: PathnameOf)
    requires '/' !in id
    requires url == "https://" + DocumentMarker + "/d/" + id + "/edit"
    requires pathname(url) == Some("/document/d/" + id + "/edit")
    ensures ExtractFileInfo(url, pathname) == Some(FileRef(id, Document))
  {
    assert url == "https://" + DocumentMarker + ("/d/" + id + "/edit");
    DocumentUrlIsDocument(url, "/d/" + id + "/edit");
    DocumentPathSplit(pathname(url).value, id);
    var parts := ["", "document", "d", id, "edit"];
    assert parts[..2] == ["", "document"];
    FirstDIsIndexOf(parts, 2);
  }

  // ---------------------------------------------------------------------
  // The missing-"d" case
  // ---------------------------------------------------------------------

  /** The corrected extractor: the segment after the
      first `"d"`, and `null` when there is none. */
  function ExtractFileInfoStrict(url: string, pathname: PathnameOf): (r: Option<FileRef>)
    ensures r.Some? ==> pathname(url).Some? && TypeOf(url) == Some(r.value.fileType)
    ensures r.Some? ==> var parts := Split(pathname(url).value, '/');
      exists i :: FirstD(parts, i) && i + 1 < |parts| && parts[i + 1] == r.value.fileId
  {
    match pathname(url)
    case None => None
    case Some(path) =>
      var parts := Split(path, '/');
      match TypeOf(url)
      case None => None
      case Some(t) =>
        var i := IndexOf(parts, "d");
        if 0 <= i && i + 1 < |parts| then
          assert FirstD(Split(pathname(url).value, '/'), i);
          Some(FileRef(parts[i + 1], t))
        else None
  }

  /** The two agree on every path that has a `"d"` segment. */
  lemma StrictAgreesWhenDPresent(url: string, pathname: PathnameOf)
    requires pathname(url).Some? && "d" in Split(pathname(url).value, '/')
    ensures ExtractFileInfoStrict(url, pathname) == ExtractFileInfo(url, pathname)
  {
  }

  /** A supported URL whose `/`-leading pathname has no `"d"` segment yields
      the empty file id instead of `null`. */
  lemma NoDSegmentGivesEmptyId(url: string, pathname: PathnameOf)
    requires TypeOf(url).Some? && pathname(url).Some?
    requires |pathname(url).value| > 0 && pathname(url).value[0] == '/'
    requires "d" !in Split(pathname(url).value, '/')
    ensures ExtractFileInfo(url, pathname) == Some(FileRef("", TypeOf(url).value))
    ensures ExtractFileInfoStrict(url, pathname).None?
  {
    LeadingSeparatorGivesEmptyFirstPiece(pathname(url).value, '/');
  }

  /** Every supported URL whose pathname is a single segment between
      slashes, `/<seg>/`, other than `/d/`, yields the empty file id. */
  lemma SingleSegmentPathHasNoId(url: string, pathname: PathnameOf, seg: string)
    requires TypeOf(url).Some?
    requires '/' !in seg && seg != "d"
    requires pathname(url) == Some("/" + seg + "/")
    ensures ExtractFileInfo(url, pathname) == Some(FileRef("", TypeOf(url).value))
    ensures ExtractFileInfoStrict(url, pathname).None?
  {
    var path := pathname(url).value;
    SplitWithoutSeparator("", '/');
    ConsSegment(seg, "", [""]);
    ConsSegment("", seg + "/" + "", [seg, ""]);
    assert path == "" + "/" + (seg + "/" + "");
    assert Split(path, '/') == ["", seg, ""];
    assert "d" !in ["", seg, ""];
    NoDSegmentGivesEmptyId(url, pathname);
  }

  lemma FolderPathSplit(path: string)
    requires path == "/document/"
    ensures Split(path, '/') == ["", "document", ""]
  {
    SplitWithoutSeparator("", '/');
    SplitAfterSeparator("document", "", '/');
    SplitAfterSeparator("", "document" + "/" + "", '/');
    assert path == "" + "/" + ("document" + "/" + "");
  }

  /** Such URLs exist: `https://docs.google.com/document/`, whose pathname
      is `/document/`, is one of them. */
  lemma DocumentFolderUrlHasNoId(url: string, pathname: PathnameOf)
    requires url == "https://" + DocumentMarker + "/"
    requires pathname(url) == Some("/document/")
    ensures ExtractFileInfo(url, pathname) == Some(FileRef("", Document))
    ensures ExtractFileInfoStrict(url, pathname).None?
  {
    DocumentUrlIsDocument(url, "/");
    FolderPathSplit(pathname(url).value);
    assert "d" !in ["", "document", ""];
    NoDSegmentGivesEmptyId(url, pathname);
  }

  // ---------------------------------------------------------------------
  // handleConnect
  // ---------------------------------------------------------------------

  const AuthInitFailedText := "Failed to initialize Google authentication"
  const ConnectFailedText := "Error connecting to Google Drive. Please try again."

  /** The outcome of `GET /api/google/auth`: the response body, or `None`
      when the request failed. */
  type AuthUrlReply = Option<Json>

  /** What `handleConnect` leaves behind: an error, or the URL stored as the
      pending Google file and the page to redirect to. */
  datatype ConnectOutcome = ConnectOutcome(error: string, pendingUrl: Option<string>, redirectTo: Option<Json>)

  function Connect(url: string, reply: AuthUrlReply): (r: ConnectOutcome)
    ensures r.pendingUrl.Some? ==> r.pendingUrl.value == url
    ensures r.pendingUrl.Some? <==> reply.Some? && HasTruthy(reply.value, "auth_url")
    ensures r.redirectTo.Some? <==> r.pendingUrl.Some?
    ensures r.redirectTo.Some? ==> r.redirectTo == Get(reply.value, "auth_url")
    ensures r.pendingUrl.Some? <==> r.error == ""
    ensures reply.None? || reply.value == JNull ==> r.error == ConnectFailedText
    ensures reply.Some? && reply.value != JNull && !HasTruthy(reply.value, "auth_url") ==> r.error == AuthInitFailedText
  {
    match reply
    case None => ConnectOutcome(ConnectFailedText, None, None)
    case Some(data) =>
      if data == JNull then ConnectOutcome(ConnectFailedText, None, None)
      else if HasTruthy(data, "auth_url") then ConnectOutcome("", Some(url), Get(data, "auth_url"))
      else ConnectOutcome(AuthInitFailedText, None, None)
  }
}
