/** The frontend pages against the backend routes: what the user sees when
    the page's request is answered by the modelled handler. */
module EndToEnd {
  import opened Base
  import opened Json
  import FileInfo
  import GoogleAuth
  import ViewBrd
  import App
  import TextProcessor

  /** How axios presents a handler's answer: a 2xx body resolves; any other
      status rejects with the body; Flask's own error page is HTML, whose
      `.error` is `undefined`. */
  function ToAxios(resp: App.Response): (reply: GoogleAuth.ProcessReply)
    ensures resp.Reply? && 200 <= resp.status < 300 ==> reply == GoogleAuth.Answered(resp.body)
    ensures resp.Reply? && !(200 <= resp.status < 300) ==> reply == GoogleAuth.Rejected(Some(resp.body))
    ensures resp.Uncaught? ==> reply.Rejected? && reply.errorBody.None?
  {
    match resp
    case Uncaught => GoogleAuth.Rejected(None)
    case Reply(status, body) =>
      if 200 <= status < 300 then GoogleAuth.Answered(body) else GoogleAuth.Rejected(Some(body))
  }

  /** The body the view page receives, or `None` when the request fails. */
  function ToFetched(resp: App.Response): (fetched: Option<Json>)
    ensures fetched.Some? <==> resp.Reply? && 200 <= resp.status < 300
  {
    if resp.Reply? && 200 <= resp.status < 300 then Some(resp.body) else None
  }

  /** The callback's request carries no `token`, so the backend refuses it
      before touching the folder or any Google API. */
  lemma CallbackRequestIsRefused(
    code: string, info: FileInfo.FileRef, dir: string, svc: App.Services, gen: App.Fresh, folder: App.Folder)
    ensures App.ProcessGoogleFile(Some(GoogleAuth.RequestBody(code, info)), dir, svc, gen, folder)
      == App.Outcome(App.ErrorReply(400, App.MissingParametersText), folder)
  {
    var body := GoogleAuth.RequestBody(code, info);
    assert Lookup(body.members, "fileId").Some? && Lookup(body.members, "fileType").Some?;
    assert App.MissingParameters(Some(body)) == Some(true);
  }

  /** The callback page run against the handler: the guards, then the POST
      answered by `process_google_file`. */
  function CallbackAgainstServer(
    code: Option<string>, pendingUrl: Option<string>, extract: string -> Option<FileInfo.FileRef>,
    dir: string, svc: App.Services, gen: App.Fresh, folder: App.Folder): GoogleAuth.AuthView
  {
    var reply :=
      if GoogleAuth.Present(code) && GoogleAuth.Present(pendingUrl) && extract(pendingUrl.value).Some? then
        ToAxios(App.ProcessGoogleFile(Some(GoogleAuth.RequestBody(code.value, extract(pendingUrl.value).value)),
                                      dir, svc, gen, folder).response)
      else GoogleAuth.Rejected(None);
    GoogleAuth.ProcessAuth(code, pendingUrl, extract, reply)
  }

  /** Whatever the code, the stored URL and the collaborators, the Google
      flow never reaches a BRD: every request that is sent comes back with
      "Missing required parameters", which the page shows. */
  lemma GoogleFlowNeverSucceeds(
    code: Option<string>, pendingUrl: Option<string>, extract: string -> Option<FileInfo.FileRef>,
    dir: string, svc: App.Services, gen: App.Fresh, folder: App.Folder)
    ensures !CallbackAgainstServer(code, pendingUrl, extract, dir, svc, gen, folder).success
    ensures CallbackAgainstServer(code, pendingUrl, extract, dir, svc, gen, folder).request.Some? ==>
      CallbackAgainstServer(code, pendingUrl, extract, dir, svc, gen, folder).error == JStr(App.MissingParametersText)
  {
    if GoogleAuth.Present(code) && GoogleAuth.Present(pendingUrl) && extract(pendingUrl.value).Some? {
      var info := extract(pendingUrl.value).value;
      CallbackRequestIsRefused(code.value, info, dir, svc, gen, folder);
      var errorBody := JObj([("error", JStr(App.MissingParametersText))]);
      assert Get(errorBody, "error") == Some(JStr(App.MissingParametersText));
    }
  }

  /** The URL the connector stores is the one the callback extracts from,
      with the connector's own extractor: a request is sent exactly when
      the code is present and the stored URL is a valid Docs or Sheets URL. */
  lemma ConnectThenCallback(
    url: string, authReply: FileInfo.AuthUrlReply, code: string, pathname: FileInfo.PathnameOf,
    reply: GoogleAuth.ProcessReply)
    requires FileInfo.Connect(url, authReply).pendingUrl.Some?
    ensures
      var stored := FileInfo.Connect(url, authReply).pendingUrl;
      var v := GoogleAuth.ProcessAuth(Some(code), stored, (u: string) => FileInfo.ExtractFileInfo(u, pathname), reply);
      && (v.request.Some? <==> code != "" && url != "" && FileInfo.ExtractFileInfo(url, pathname).Some?)
      && (v.request.Some? ==> v.request.value == GoogleAuth.RequestBody(code, FileInfo.ExtractFileInfo(url, pathname).value))
  {
  }

  /** The page for a served record whose `original_filename` is the
      non-empty `name`: it is shown, naming `name` as its source, exactly
      when the record has a non-null `brd` whose executive summary and
      whose `id` React can render, and crashes otherwise. */
  lemma RecordPageShowsFilename(body: Json, name: string)
    requires Get(body, "original_filename") == Some(JStr(name)) && name != ""
    ensures
      var page := ViewBrd.ViewPage(Some(body));
      var brd := Get(body, "brd");
      var id := Get(body, "id");
      && !page.LoadFailed? && !page.NotFound?
      && (page.Shown? <==>
            && brd.Some? && brd != Some(JNull)
            && ViewBrd.RenderableChild(ViewBrd.SummaryOf(brd.value))
            && (id.None? || ViewBrd.RenderableChild(id.value)))
      && (page.Crashed? <==> !page.Shown?)
      && (page.Shown? ==> page.source == JStr(name))
  {
    assert body.JObj?;
    assert HasTruthy(body, "original_filename");
    assert ViewBrd.SourceLabel(body) == JStr(name);
  }

  /** The callback for `https://docs.google.com/document/`: the extractor as
      written sends a request with the empty file id, where the corrected
      extractor stops at the invalid-URL guard. */
  lemma FolderUrlCallback(code: string, url: string, pathname: FileInfo.PathnameOf, reply: GoogleAuth.ProcessReply)
    requires code != ""
    requires url == "https://" + FileInfo.DocumentMarker + "/" && pathname(url) == Some("/document/")
    ensures GoogleAuth.ProcessAuth(Some(code), Some(url), (u: string) => FileInfo.ExtractFileInfo(u, pathname), reply).request
      == Some(GoogleAuth.RequestBody(code, FileInfo.FileRef("", FileInfo.Document)))
    ensures GoogleAuth.ProcessAuth(Some(code), Some(url), (u: string) => FileInfo.ExtractFileInfoStrict(u, pathname), reply).error
      == JStr(GoogleAuth.InvalidUrlText)
  {
    FileInfo.DocumentFolderUrlHasNoId(url, pathname);
    var loose := (u: string) => FileInfo.ExtractFileInfo(u, pathname);
    var strict := (u: string) => FileInfo.ExtractFileInfoStrict(u, pathname);
    assert loose(url) == Some(FileInfo.FileRef("", FileInfo.Document));
    assert strict(url).None?;
    assert GoogleAuth.Present(Some(code)) && GoogleAuth.Present(Some(url));
    assert GoogleAuth.ProcessAuth(Some(code), Some(url), strict, reply).error == JStr(GoogleAuth.InvalidUrlText);
  }

  /** A successful upload, viewed through its id: the page is neither the
      load error nor the not-found warning; it is shown exactly when the
      stored `brd` is not null and its executive summary is something
      React can render, and then names the secured file as the source and
      shows the stored executive summary, as served. */
  lemma UploadedBrdIsViewable(
    part: Option<App.FilePart>, dir: string, svc: App.Services, gen: App.Fresh, folder: App.Folder)
    requires App.UploadFile(part, dir, svc, gen, folder).response.Reply?
    requires App.UploadFile(part, dir, svc, gen, folder).response.status == 200
    ensures
      var r := App.UploadFile(part, dir, svc, gen, folder);
      var stored := r.folder[App.BrdPath(dir, gen.brdId)].data;
      var page := ViewBrd.ViewPage(ToFetched(App.GetBrd(gen.brdId, dir, r.folder)));
      && !page.LoadFailed? && !page.NotFound?
      && Get(stored, "brd").Some?
      && (page.Shown? <==>
            && Get(stored, "brd") != Some(JNull)
            && ViewBrd.RenderableChild(ViewBrd.SummaryOf(Get(stored, "brd").value)))
      && (page.Shown? ==>
            && page.source == JStr(svc.secureFilename(part.value.filename))
            && page.summary == App.Served(ViewBrd.SummaryOf(Get(stored, "brd").value)))
  {
    var r := App.UploadFile(part, dir, svc, gen, folder);
    App.UploadThenGet(part, dir, svc, gen, folder);
    var name := svc.secureFilename(part.value.filename);
    assert name != "" by {
      var path := App.UploadPath(dir, svc, gen, part.value.filename);
      assert r == App.Dispatch(name, path, dir, svc, gen, folder[path := App.UploadedFile(part.value.filename)]);
      assert TextProcessor.Extension(name).Some?;
    }
    var stored := r.folder[App.BrdPath(dir, gen.brdId)].data;
    var served := App.GetBrd(gen.brdId, dir, r.folder);
    assert ToFetched(served) == Some(served.body);
    App.GetBrdReadsBack(gen.brdId, dir, r.folder, "brd");
    App.GetBrdReadsBack(gen.brdId, dir, r.folder, "id");
    var brd := Get(stored, "brd").value;
    App.ServedTruthy(brd);
    ServedSummary(brd);
    ServedRenderable(ViewBrd.SummaryOf(brd));
    RecordPageShowsFilename(served.body, name);
  }

  /** Serving keeps a value renderable as a React child, and keeps a
      value that is not renderable unrenderable: objects stay objects and
      arrays keep their items in place. */
  lemma {:induction false} ServedRenderable(j: Json)
    ensures ViewBrd.RenderableChild(App.Served(j)) == ViewBrd.RenderableChild(j)
    decreases j
  {
    match j
    case JArr(xs) =>
      var rs := App.ServedItems(xs);
      assert App.Served(j) == JArr(rs);
      forall i | 0 <= i < |xs|
        ensures ViewBrd.RenderableChild(rs[i]) == ViewBrd.RenderableChild(xs[i])
      {
        ServedRenderable(xs[i]);
      }
    case _ =>
  }

  /** The executive summary the page shows for a served `brd` is the
      stored one, as served. */
  lemma ServedSummary(brd: Json)
    ensures ViewBrd.SummaryOf(App.Served(brd)) == App.Served(ViewBrd.SummaryOf(brd))
  {
    App.ServedGet(brd, ViewBrd.SummaryKey);
    var v := Get(brd, ViewBrd.SummaryKey);
    if v.Some? {
      App.ServedTruthy(v.value);
    }
  }

  /** The accordions of a served record come in ascending key order, not
      in the order the record was written: one per non-summary key of the
      sorted `brd`. */
  lemma ServedSectionsInKeyOrder(id: string, dir: string, folder: App.Folder, ps: seq<(string, Json)>)
    requires App.BrdPath(dir, id) in folder && folder[App.BrdPath(dir, id)].BrdFile?
    requires folder[App.BrdPath(dir, id)].data.JObj?
    requires Get(folder[App.BrdPath(dir, id)].data, "brd") == Some(JObj(ps))
    ensures
      var data := folder[App.BrdPath(dir, id)].data;
      var page := ViewBrd.ViewPage(ToFetched(App.GetBrd(id, dir, folder)));
      var sorted := App.SortMembers(App.ServedMembers(ps));
      && (page.Shown? <==> ViewBrd.PageRenders(App.Served(data), JObj(sorted)))
      && (!page.Shown? ==> page.Crashed?)
      && (page.Shown? ==> page.sections == ViewBrd.Sections(sorted))
      && App.KeysAscending(sorted)
      && (forall k :: Lookup(sorted, k) == App.ServedValue(Lookup(ps, k)))
  {
    var data := folder[App.BrdPath(dir, id)].data;
    App.GetBrdReadsBack(id, dir, folder, "brd");
    var sorted := App.SortMembers(App.ServedMembers(ps));
    assert App.Served(JObj(ps)) == JObj(sorted);
    forall k ensures Lookup(sorted, k) == App.ServedValue(Lookup(ps, k)) {
      App.ServedGet(JObj(ps), k);
    }
  }

  /** A BRD id that was never stored shows the load error. */
  lemma UnknownBrdShowsLoadError(id: string, dir: string, folder: App.Folder)
    requires App.BrdPath(dir, id) !in folder
    ensures ViewBrd.ViewPage(ToFetched(App.GetBrd(id, dir, folder))) == ViewBrd.LoadFailed(ViewBrd.LoadErrorText)
  {
  }
}
