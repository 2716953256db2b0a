/** `GoogleAuth.js`: the OAuth callback page. It reads the authorization
    code from the query string and the pending file URL from local storage,
    extracts the file reference, posts both to `/api/google/process` and
    either schedules the redirect to the new BRD or shows an error.

    The query string, local storage, the URL parser and the HTTP reply are
    parameters. */
module GoogleAuth {
  import opened Base
  import opened Strings
  import opened Json
  import FileInfo

  /** The page's own copy of `extractFileInfo`, with `indexOf` written out
      as the scan it performs. It computes exactly the connector's
      extractor. */
  method ExtractFileInfo(url: string, pathname: FileInfo.PathnameOf) returns (r: Option<FileInfo.FileRef>)
    ensures r == FileInfo.ExtractFileInfo(url, pathname)
  {
    var path := pathname(url);
    if path.None? {
      return None;
    }
    var parts := Split(path.value, '/');
    var fileType := FileInfo.TypeOf(url);
    if fileType.None? {
      return None;
    }
    var k := 0;
    while k < |parts| && parts[k] != "d"
      invariant 0 <= k <= |parts|
      invariant "d" !in parts[..k]
    {
      assert parts[..k + 1] == parts[..k] + [parts[k]];
      k := k + 1;
    }
    var index := if k == |parts| then -1 else k;
    assert k == |parts| ==> parts[..k] == parts;
    assert index == IndexOf(parts, "d") by {
      if k < |parts| {
        FileInfo.FirstDIsIndexOf(parts, k);
      }
    }
    if index + 1 < |parts| {
      r := Some(FileInfo.FileRef(parts[index + 1], fileType.value));
    } else {
      r := None;
    }
  }

  const NoCodeText := "No authorization code received from Google"
  const NoPendingUrlText := "No Google file URL found. Please try again."
  const InvalidUrlText := "Invalid Google file URL. Please try again with a valid Google Doc or Sheet URL."
  const NotProcessedText := "Failed to process Google file. Please try again."
  const GenericAuthErrorText := "Error processing Google authentication. Please try again."

  /** A value read from the query string or local storage is usable when it
      is present and non-empty (JavaScript truthiness of a string). */
  predicate Present(o: Option<string>) {
    o.Some? && o.value != ""
  }

  /** The outcome of the POST: a 2xx body (`Answered`), or a rejection with
      the error response's body when there is one (`Rejected`). */
  datatype ProcessReply = Answered(data: Json) | Rejected(errorBody: Option<Json>)

  /** The page state after `processAuth` settles. `error` is the alert's
      content (`JStr("")` for none); `request` is the body posted, if any;
      `clearPending` is the removal of the stored URL; `redirectTo` is the
      `brd_id` the delayed navigation goes to. */
  datatype AuthView = AuthView(
    loading: bool,
    success: bool,
    error: Json,
    request: Option<Json>,
    clearPending: bool,
    redirectTo: Option<Json>)

  /** The request body: the code and the file reference, and nothing else. */
  function RequestBody(code: string, info: FileInfo.FileRef): (body: Json)
    ensures body.JObj? && |body.members| == 3
    ensures Get(body, "code") == Some(JStr(code))
    ensures Get(body, "fileId") == Some(JStr(info.fileId))
    ensures Get(body, "fileType") == Some(JStr(FileInfo.TypeName(info.fileType)))
    ensures !HasKey(body.members, "token")
  {
    var ps := [("code", JStr(code)), ("fileId", JStr(info.fileId)), ("fileType", JStr(FileInfo.TypeName(info.fileType)))];
    assert ps[..2] == [ps[0], ps[1]] && ps[..2][..1] == [ps[0]];
    assert "fileType" != "code" && "fileType" != "fileId" && "fileId" != "code";
    JObj(ps)
  }

  /** `err.response?.data?.error || 'Error processing …'`. */
  function RejectionText(errorBody: Option<Json>): (e: Json)
    ensures Truthy(e)
    ensures errorBody.Some? && HasTruthy(errorBody.value, "error") ==> Some(e) == Get(errorBody.value, "error")
    ensures !(errorBody.Some? && HasTruthy(errorBody.value, "error")) ==> e == JStr(GenericAuthErrorText)
  {
    if errorBody.Some? && HasTruthy(errorBody.value, "error") then Get(errorBody.value, "error").value
    else JStr(GenericAuthErrorText)
  }

  function Stopped(message: string): AuthView {
    AuthView(false, false, JStr(message), None, false, None)
  }

  /** `processAuth`: the three guards in order, then the POST. */
  function ProcessAuth(
    code: Option<string>,
    pendingUrl: Option<string>,
    extract: string -> Option<FileInfo.FileRef>,
    reply: ProcessReply): (v: AuthView)
    ensures !v.loading
    ensures !Present(code) ==> v.error == JStr(NoCodeText) && v.request.None?
    ensures Present(code) && !Present(pendingUrl) ==> v.error == JStr(NoPendingUrlText) && v.request.None?
    ensures Present(code) && Present(pendingUrl) && extract(pendingUrl.value).None? ==>
      v.error == JStr(InvalidUrlText) && v.request.None?
    ensures v.request.Some? <==> Present(code) && Present(pendingUrl) && extract(pendingUrl.value).Some?
    ensures v.request.Some? ==> v.request.value == RequestBody(code.value, extract(pendingUrl.value).value)
    ensures v.success <==>
      v.request.Some? && reply.Answered? && HasTruthy(reply.data, "success") && HasTruthy(reply.data, "brd_id")
    ensures v.clearPending <==> v.success
    ensures v.redirectTo.Some? <==> v.success
    ensures v.success ==> v.redirectTo == Get(reply.data, "brd_id") && v.error == JStr("")
    ensures !v.success ==> Truthy(v.error)
    ensures v.request.Some? && reply.Rejected? ==> v.error == RejectionText(reply.errorBody)
    ensures v.request.Some? && reply.Answered? && reply.data == JNull ==> v.error == JStr(GenericAuthErrorText)
    ensures v.request.Some? && reply.Answered? && reply.data != JNull && !v.success ==> v.error == JStr(NotProcessedText)
  {
    if !Present(code) then Stopped(NoCodeText)
    else if !Present(pendingUrl) then Stopped(NoPendingUrlText)
    else
      match extract(pendingUrl.value)
      case None => Stopped(InvalidUrlText)
      case Some(info) =>
        var body := RequestBody(code.value, info);
        match reply
        case Rejected(errorBody) =>
          AuthView(false, false, RejectionText(errorBody), Some(body), false, None)
        case Answered(data) =>
          if data == JNull then
            // reading `.success` of `null` throws, and the thrown error has no response
            AuthView(false, false, JStr(GenericAuthErrorText), Some(body), false, None)
          else if HasTruthy(data, "success") && HasTruthy(data, "brd_id") then
            AuthView(false, true, JStr(""), Some(body), true, Get(data, "brd_id"))
          else
            AuthView(false, false, JStr(NotProcessedText), Some(body), false, None)
  }
}
